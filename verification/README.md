# Digital wallet: verified model

A Dafny model of the Digital Wallet API: the money engine in PL/pgSQL (procedure, triggers, constraints), the
receipt pipeline around the job queue, the migration runner, the paged reads, and the amount field of the web
client. `dafny verify dfyconfig.toml` checks everything.

## How it is built

Two systems carry most of the weight. Each is a step machine whose steps are the statements of the program, with
any interleaving of any number of participants, and each is tied to code in the program's own imperative form.

**Money.** `Schema` holds the tables, CHECK and UNIQUE constraints and the trigger functions. `Serial` is the
specification: transfers and registrations executed one at a time (`Decide`, `Legal`, `Apply`, `Replay`). `Ledger` is
the theory of a wallet's rows. `Engine` is the database under concurrent connections: a snapshot that may be stale,
row locks taken in id order, the newest committed row handed over with each lock, private writes, triggers, sequences
that leave gaps, lost connections, stray balance updates (on their own and later in the transaction of a call), and
attempts to change ledger rows. `EngineInvariant`, `EngineSteps` and `EngineCommits` prove its invariant;
`EngineTheorems`, `EngineRecords` (answers and rows column by column), `EngineLiveness` and `Overdraft` state what
follows for every run, and `EngineWitness` is one run. `TransferProcedure` is the same procedure, its triggers, the
registration and the receipt updates as methods of a class that changes its tables in place, proved against `Serial`.

**Receipts.** `Receipts` holds the pieces (object key, receipt, row updates, queue records, scan).
`ReceiptPipeline` is the system of API processes, queue, overlapping worker runs, failure handlers and recovery
scans, with refused calls, lost answers and crashes everywhere. `ReceiptInvariant` and `ReceiptTheorems` prove what
holds of every run; `Recovery` is the scan itself and the draining of a backlog on tables, and `ReceiptRounds` the
same in runs of the pipeline; `ReceiptProgress`, `ReceiptStarvation` and `ReceiptWitness` say exactly when a receipt
can get its job. `ReceiptService` has the transfer service, queue, storage, processor, failure handler and recovery
loop as classes; `ReceiptRefinement` shows that the class's processor does nothing but steps of one pipeline run.

**Companions.** `Migrations` (concurrent runners) and `MigrationRunner` (one runner, imperative);
`TransactionQueries` (order, pages, who sees what); `Amounts` (grouped printing and parsing) over `Numbers`
(doubles and rounding); `Ordering` (string order and sorting); `Division`.

Where code and documentation differ the code is followed: the receipt CHECK covers both url and key
(db/migrations/001_create_schema.sql:44-46), while docs/database-design.md:100 mentions the url only.

### Assumptions

- PostgreSQL: READ COMMITTED visibility; `SELECT ... FOR UPDATE` hands over the newest committed row; a raise or a
  lost connection undoes writes, locks and transaction-local settings; sequence values and UUIDs do not repeat; an
  advisory lock has one holder and goes with its connection, and unlocking it on a live connection does not fail (an
  unlock error is swallowed and the connection goes back to the pool, src/db/migrator.js:45-46). Wallet owners never
  change, as no code changes them.
- Queue: adding an id that has a record does nothing; jobs are delivered at least once and may be handed out again
  while an earlier run is still going; only the run that holds a job's lock settles it; the failed attempt is
  counted before the failure handler sees it; settled records are kept for a time and then removed.
- Storage: a map from key to content whose calls may fail, or take effect and lose their answer.
- JavaScript: `Number(digits)` is the nearest double, ties to even, and Infinity from 2^1024 - 2^970 on; a printed
  Number shows digits that denote that Number again (exact or shortest, as the engine prefers).

### Findings

- The recovery scan can starve. It reads the oldest overdue PENDING rows and enqueues them, but an id with a
  retained record of an exhausted job cannot be enqueued again. An older PENDING receipt is stuck when its job is
  exhausted on record, no run of it is left, and no final failure of it is on its way to the handler (its FAILED write
  was lost). A PENDING receipt that has no job and that nobody is about to enqueue can get one before a record is
  removed if and only if fewer than a batch of strictly older receipts are stuck (`ReceiptStarvation.JobIffFewBlockers`);
  for every batch size, number of attempts and threshold such a starved state can be reached
  (`ReceiptWitness.StarvationHappens`).
- A page past the end reports total 0 (`TransactionQueries.TotalExactInside`).
- The amount field is stable under retyping exactly until the digits overflow to Infinity: the sign then shown has no
  digits, and the next input event empties the field (`Amounts.ReformattingIsIdempotent`).
- The clear of the setting at the end of the procedure is what rejects a balance change later in the same transaction;
  one statement earlier the trigger would have booked it under the call's transaction
  (`EngineTheorems.OnlyTheClearRejects`).

## Model

| member | source | states |
|---|---|---|
| EngineTheorems.Serializable | db/migrations/003_create_transfer_procedure.sql:17-65 | in every interleaving of calls, registrations, aborts and stray updates the committed tables equal a serial replay of the commits; each finished call got an isolated call's answer at its end (at its snapshot if a wallet was missing); successes are the committed transfers, in order |
| EngineRecords.AnswersMean | db/migrations/003_create_transfer_procedure.sql:17-54 | the answer of a finished call, error by error: WL001 exactly for a NULL or non-positive amount, WL002 for equal users, WL003 and WL004 for a missing wallet, WL005 for too little money; success says PENDING exactly above the threshold |
| EngineRecords.RowsRecordRequests | db/migrations/003_create_transfer_procedure.sql:51-58 | every committed transfer left a row with its request's parties, amount, description and start time, no url or key, and PENDING exactly above the threshold; there are no other rows |
| EngineRecords.AnswerIsRowStatus | db/migrations/003_create_transfer_procedure.sql:51-58 | a successful call is answered with the status of the row it committed |
| EngineRecords.ConstraintsHold | db/migrations/001_create_schema.sql:18-69 | every CHECK, UNIQUE and foreign key constraint on wallets, transactions and ledger, column by column, in every reachable state |
| EngineRecords.UsernamesAreUnique | db/migrations/001_create_schema.sql:13 | no two users share a name, whatever registrations overlap |
| EngineRecords.RegistrationRefused | src/services/auth.service.js:19-23 | in every interleaving a registration fails exactly for a taken name or a balance outside the column's range, and otherwise commits as that registration |
| EngineRecords.LossUndoes | src/db/pool.js:30-45 | a connection can be lost in the middle of any statement: tables stay, locks and writes are gone, a call is recorded as lost |
| EngineRecords.UpdateAnswers | db/migrations/002_create_ledger_triggers.sql:16-46 | each answer of a balance update exactly when (range, CHECK, WL006, unique key), and the one signed row an accepted change writes |
| EngineRecords.SecondPostingRejected | db/migrations/001_create_schema.sql:60 | a transaction cannot post twice on one wallet: the unique key is what rejects it |
| EngineRecords.SafeMoneyNeverOverflows | src/db/pool.js:6-12 | while the openings total at most 2^53-1, no call leaves the BIGINT range |
| EngineCommits.StepKeepsInv | db/migrations/003_create_transfer_procedure.sql:25-65 | every single step keeps the engine invariant: held locks, private writes and phases agree, fetched rows are still current when written |
| EngineCommits.WritesAreTransfer | db/migrations/003_create_transfer_procedure.sql:56-65 | the private writes that a call commits are exactly one legal serial transfer on the state it commits to, though other calls committed meanwhile |
| EngineCommits.StrayHasNoEffect | db/migrations/002_create_ledger_triggers.sql:16-21 | a balance update as a statement of its own leaves the whole state unchanged |
| EngineCommits.LateUpdateAborts | db/migrations/002_create_ledger_triggers.sql:16-21 | a balance changed later in the transaction of a call fails and rolls that transaction back |
| EngineTheorems.LedgerRebuildsBalances | db/migrations/002_create_ledger_triggers.sql:8-33 | in every reachable state each wallet's rows, in id order, start at 0, chain, end in the balance, and add up to it; so the ledger alone rebuilds all balances (0 for a wallet without rows) |
| EngineTheorems.TransactionsMatchLedger | db/migrations/001_create_schema.sql:49-69 | each committed transaction has exactly one DEBIT on its sender and one CREDIT on its recipient, of its amount; every other row is an OPENING |
| EngineTheorems.MoneyConserved | db/migrations/002_create_ledger_triggers.sql:8-33 | the balances sum to the openings, no balance is negative, and no amount or balance exceeds the openings |
| EngineTheorems.MoneyParses | src/db/pool.js:6-12 | while the openings total at most 2^53-1, no balance, amount or ledger value makes the BIGINT parser throw |
| EngineTheorems.ParsesExactlySafe | src/db/pool.js:6-12 | the parser, which rounds first and checks afterwards, returns a value exactly up to 2^53-1 in magnitude, unrounded, and throws for every other |
| EngineTheorems.OnlyDocumentedFailures | db/migrations/003_create_transfer_procedure.sql:39-65 | a call ends with a commit, a lost connection or WL001 to WL005; constraints and the ledger trigger never fire inside it, and the BIGINT range is left only if more was put in than it holds |
| EngineTheorems.LedgerIdsFollowCommits | db/migrations/003_create_transfer_procedure.sql:25-63 | per wallet, ledger ids drawn before commit are in commit order |
| EngineWitness.IdsNeedNotFollowCommits | db/migrations/002_create_ledger_triggers.sql:8-14 | a reachable state of two overlapping registrations in which the first commit wrote ledger row 2 and the second one row 1: across wallets, id order is not commit order |
| EngineTheorems.LedgerIsAppendOnly | db/migrations/002_create_ledger_triggers.sql:48-61 | along every run, attempts to update or delete ledger rows included, a committed ledger row stays as it is |
| EngineTheorems.LedgerChangeRejected | db/migrations/002_create_ledger_triggers.sql:48-61 | changing or deleting a committed ledger row raises WL007 and has no effect |
| EngineTheorems.SettingNamesOwnTransaction | db/migrations/003_create_transfer_procedure.sql:60-65 | the current-transaction setting is non-empty exactly between set and clear, and names the row this call just inserted and has not committed |
| EngineTheorems.StrayUpdateRejected | db/migrations/002_create_ledger_triggers.sql:16-21 | whatever ran on the connection before, a balance changed by a statement of its own raises WL006 and has no effect |
| EngineTheorems.LateUpdateRejected | db/migrations/003_create_transfer_procedure.sql:65 | a balance changed after the CALL in its transaction raises WL006; the transaction is undone, the call with it, and committed tables stay |
| EngineTheorems.OnlyTheClearRejects | db/migrations/003_create_transfer_procedure.sql:60-65 | before the clear the same change of a third wallet would be accepted and booked under the call's transaction |
| EngineLiveness.NoDeadlock | db/migrations/003_create_transfer_procedure.sql:25-37 | while anything is unfinished some statement can proceed, for any number of calls over any wallets |
| EngineLiveness.BlockedChainEnds | db/migrations/003_create_transfer_procedure.sql:28-30 | following blocked calls to the holders they wait for climbs the wallet ids and ends at one that can proceed |
| EngineLiveness.RunsAreFinite | db/migrations/003_create_transfer_procedure.sql:17-65 | without new arrivals every interleaving stops within a fixed number of steps |
| EngineLiveness.StuckMeansFinished | db/migrations/003_create_transfer_procedure.sql:17-65 | a run that cannot go on has finished every statement and holds no lock, write or setting |
| EngineLiveness.EverythingCanFinish | db/migrations/003_create_transfer_procedure.sql:17-65 | every reachable state can be driven to one where all is finished |
| Overdraft.ExactOverdraftCount | db/migrations/003_create_transfer_procedure.sql:47-63 | n concurrent transfers of the same amount from balance b, nothing coming in, succeed exactly min(n, b div amount) times in every interleaving, and all n end |
| Overdraft.CoveredTransfersSucceed | db/migrations/003_create_transfer_procedure.sql:47-63 | if every sender's balance covers all it sends in a batch, every transfer of the batch succeeds in every interleaving |
| Overdraft.CallsConserved | src/repositories/transaction.repository.js:31-37 | in every run each issued call is in progress or has ended exactly once |
| Serial.HistoryKeepsDbOk | db/migrations/001_create_schema.sql:18-69 | every history of atomic commits satisfies the schema's constraints, one wallet per user, the transaction-ledger correspondence, the chains and conservation |
| Serial.ApplyKeepsDbOk | db/migrations/003_create_transfer_procedure.sql:56-65 | one legal transfer or registration keeps all of these |
| Serial.DecideMeans | db/migrations/003_create_transfer_procedure.sql:17-54 | the answers of an isolated call, each exactly when, in the order of the checks |
| Serial.TransferInserts | db/migrations/003_create_transfer_procedure.sql:56-58 | a transfer adds one transaction row: its request's parties, amount, description, time, and PENDING exactly above the threshold; other rows stay |
| Serial.TransferMoves | db/migrations/003_create_transfer_procedure.sql:62-63 | the amount leaves the sender's wallet and enters the recipient's; every other balance and owner stays |
| Serial.RegistrationInserts | db/migrations/002_create_ledger_triggers.sql:8-14 | a registration adds one user, one wallet of that user, and one OPENING row of the whole balance exactly when it is positive |
| Serial.DebitAccepted | db/migrations/002_create_ledger_triggers.sql:23-31 | a covered debit inside a transfer passes every check and writes exactly one DEBIT row |
| Serial.CreditAccepted | db/migrations/002_create_ledger_triggers.sql:23-31 | a credit inside a transfer writes exactly one CREDIT row unless the balance leaves the BIGINT range |
| Ledger.ChainAddsUp | db/migrations/002_create_ledger_triggers.sql:23-31 | the last balance_after of a chain from 0 is the signed sum of its rows |
| TransferProcedure.WalletDatabase.TransferFunds | db/migrations/003_create_transfer_procedure.sql:1-68 | the procedure in place on the tables answers as an isolated call must; success is exactly one serial transfer, and its row, column by column, is what was asked for, with the status of the answer; anything else leaves the tables as they were |
| TransferProcedure.WalletDatabase.FetchWallets | db/migrations/003_create_transfer_procedure.sql:25-37 | the loop over the ordered rows finds exactly the two users' wallets, or the absence of each |
| TransferProcedure.SelectIsLockOrder | db/migrations/003_create_transfer_procedure.sql:27-31 | the ordered query yields the wallets lower id first, whatever the order of the users |
| TransferProcedure.WalletDatabase.AppendBalanceRow | db/migrations/002_create_ledger_triggers.sql:16-31 | the trigger appends one row with sign, amount and both balances, or raises WL006 when no transaction is set |
| TransferProcedure.WalletDatabase.SetBalance | db/migrations/002_create_ledger_triggers.sql:16-46 | an UPDATE of a balance with its CHECK, its trigger and the row's own constraints is all or nothing |
| TransferProcedure.WalletDatabase.Post | db/migrations/003_create_transfer_procedure.sql:56-65 | insert, set, two updates and clear write the transaction, both balances and both ledger rows, and leave no setting |
| TransferProcedure.WalletDatabase.Register | src/services/auth.service.js:12-24 | user, wallet and OPENING row appear together or not at all; it succeeds exactly for a free name and a balance in range |
| TransferProcedure.WalletDatabase.MarkReceiptGenerated | src/repositories/transaction.repository.js:81-89 | the row gets GENERATED, this key and this url, keeps its transfer columns, and no other row changes; the row count is reported; no money invariant is disturbed |
| TransferProcedure.WalletDatabase.MarkReceiptFailed | src/repositories/transaction.repository.js:91-99 | exactly a PENDING row becomes FAILED, no other column or row changes, the row count is reported; no money invariant is disturbed |
| TransferProcedure.WalletDatabase.FindPendingReceiptIds | src/repositories/transaction.repository.js:68-79 | PENDING and older than asked, no id twice, oldest first, at most the limit; a row left out means the limit is used up by rows at least as old |
| TransferProcedure.ReceiptKeepsDbOk | src/repositories/transaction.repository.js:81-99 | changing receipt columns keeps chains, correspondence and conservation |
| ReceiptInvariant.StepKeepsInv | src/workers/receipt.processor.js:7-52 | every step of API, queue, workers, handlers and scans keeps the pipeline invariant and moves no row backwards |
| ReceiptTheorems.NothingLost | src/workers/pending-receipts.recovery.js:2-6 | a PENDING receipt has a live job; or no record, and the scan can pick it up once old enough; or an exhausted record whose FAILED write is under way or lost; a completed job has its receipt |
| ReceiptTheorems.StatusNeverGoesBack | src/repositories/transaction.repository.js:81-99 | over any run the status only moves up PENDING < FAILED < GENERATED, NOT_REQUIRED stays, a written key stays, transfer columns never change |
| ReceiptTheorems.CommittedTransferStays | src/repositories/transaction.repository.js:81-99 | a committed transfer starts without a receipt, PENDING exactly above the threshold, and keeps parties, amount, description and time in every later state |
| ReceiptTheorems.UrlComesFromStorage | src/workers/receipt.processor.js:22-23 | the url of a GENERATED row is one that the storage gave to a run of that very transaction |
| ReceiptTheorems.AddsGiveJobs | src/queues/receipt.queue.js:19-21 | whoever adds an id, afterwards it has a record, new ones waiting with no attempt made; every other record stays |
| ReceiptTheorems.FaultsTouchNoRow | src/workers/receipt.processor.js:7-28 | a run may die or throw and an enqueue or scan be cut off at any moment; no row or object changes; a throw charges its job one attempt, and it waits again unless that was the last |
| ReceiptTheorems.StalledIsHandedOut | src/workers/receipt.processor.js:8-18 | a stalled job can be handed out again with its attempts as they were, while the old run goes on |
| ReceiptTheorems.WorkIsAlwaysNeeded | src/services/transfer.service.js:14-20 | every job, run and failure event belongs to a committed transaction above the threshold, so the processor never meets a missing row or a NOT_REQUIRED one |
| ReceiptTheorems.RowAgreesWithStore | src/workers/receipt.processor.js:16-23 | a GENERATED row has its own key, a url, and its own receipt in the store; any other row has neither; NOT_REQUIRED is exactly "not above the threshold" |
| ReceiptTheorems.OneObjectPerTransaction | src/storage/receipt.storage.js:25-28 | across retries and duplicates every object is a needed receipt under its own key, and no transaction has two |
| ReceiptTheorems.DownloadServesOwnReceipt | src/services/transaction.service.js:32-41 | granted exactly for viewable GENERATED receipts, and then for the stored receipt of that very transaction; "not required" exactly for viewable transfers not above the threshold, "not ready" for the other viewable ones, "not found" for all else |
| ReceiptTheorems.FailedOnlyWhenExhausted | src/workers/receipt.processor.js:30-52 | a FAILED receipt had at least `attempts` runs that threw, and a handler that wrote it |
| ReceiptTheorems.OneDelivery | src/workers/receipt.processor.js:8-27 | one undisturbed delivery stores the receipt, generates the row, completes the job, and touches nothing else |
| ReceiptTheorems.PendingCanBecomeGenerated | src/workers/pending-receipts.recovery.js:1-12 | from every reachable state, whatever failed or crashed, every PENDING receipt can still become GENERATED |
| ReceiptWitness.StarvationHappens | src/queues/receipt.queue.js:9-21 | for every batch size, number of attempts and threshold a state is reachable in which exhausted records fill every scan and a younger receipt is stuck |
| ReceiptStarvation.StarvesUntilRemoval | src/workers/pending-receipts.recovery.js:3-6 | such a receipt gets no job in any run that removes no blocker's record, whatever else is generated, fails, crashes or is removed |
| ReceiptStarvation.JobIffFewBlockers | src/workers/pending-receipts.recovery.js:2-6 | a PENDING receipt without a job, that nobody is about to enqueue, can get one before any record is removed if and only if fewer than a batch of strictly older PENDING receipts are stuck |
| ReceiptProgress.CanSettle | src/workers/receipt.processor.js:7-52 | a PENDING receipt with a record that is not stuck can be generated or failed without a removal, and nothing else need change |
| Recovery.InEveryScan | src/repositories/transaction.repository.js:68-79 | an overdue receipt is in every possible scan if and only if fewer than the limit others are at most as young |
| Recovery.ScanMeans | src/repositories/transaction.repository.js:68-79 | every possible answer of the query, row by row: PENDING and old enough, none twice, oldest first, at most the limit, and nothing older left out |
| Recovery.ScanExists | src/repositories/transaction.repository.js:68-79 | the query has an answer for every table, time and limit |
| Recovery.BacklogDrains | src/workers/pending-receipts.recovery.js:2-11 | when each round settles what it scanned, a fixed backlog of n is cleared in exactly ceil(n / batch) rounds |
| ReceiptRounds.BacklogCanDrain | src/workers/pending-receipts.recovery.js:2-11 | when nothing overdue is stuck, the pipeline itself has a run of exactly ceil(n / batch) scans that clears a backlog of n |
| ReceiptRounds.ScannedInTimeInEveryRun | src/repositories/transaction.repository.js:68-79 | in every run, with time passing and any other steps, whose rounds settle what they scanned, a receipt with p others ahead of it is scanned or settled by round p div batch + 1 |
| Recovery.ScannedInTime | src/repositories/transaction.repository.js:68-79 | a receipt with p others ahead of it is scanned by round p div batch + 1 |
| Receipts.ObjectKeyInjective | src/storage/receipt.storage.js:3 | different transactions have different keys |
| Receipts.BuildsReceipt | src/services/receipt.builder.js:5-23 | a built receipt names its transaction, time, payer, payee and description (a dash for none), its time of generation, and the amount in grouped digits that denote it, with its unit |
| Receipts.AddJobsEffect | src/queues/receipt.queue.js:19-21 | adding many ids gives each a record, leaves existing records as they are, and creates no other |
| ReceiptService.ReceiptWorker.ProcessReceiptJob | src/workers/receipt.processor.js:8-27 | missing row: unrecoverable; generated: skipped with its stored key and url; else the receipt of that row is stored unless the upload is refused, and the row gets GENERATED, its key and the url obtained exactly if upload, url and update get through; success returns that key and url |
| ReceiptRefinement.ProcessorIsARun | src/workers/receipt.processor.js:7-28 | at every exit and however its calls fare, the processor's effects on rows, store and job record are those of steps of one pipeline run: given up for a missing row, completed when it returns, else charged with a failed attempt |
| ReceiptService.ReceiptWorker.OnReceiptJobFailed | src/workers/receipt.processor.js:34-52 | exactly a PENDING row of a known job becomes FAILED, when the error is unrecoverable or the attempts (one if not set) are used up; everything else stays |
| ReceiptService.ReceiptWorker.EnqueueAll | src/workers/pending-receipts.recovery.js:4-6 | the loop adds exactly the ids up to the first failed call, in order: id k if all calls before it were answered and its own was not refused |
| ReceiptService.ReceiptWorker.RecoverPendingReceipts | src/workers/pending-receipts.recovery.js:2-11 | one scan is enqueued in order up to the first failed call; the count is returned exactly when none failed |
| ReceiptService.TransferService.Transfer | src/services/transfer.service.js:3-29 | a CALL that is refused or rejected has no effect anywhere; a committed transfer stays committed even if its answer is lost or its row cannot be read back, and then nothing is enqueued or notified; otherwise it is answered as sent whatever queue and notifier do, and enqueued exactly when above the threshold and the queue takes it |
| Migrations.AppliedIsRecordedPrefix | src/db/migrator.js:12-47 | with any number of runners and failures the committed files are a prefix of the sorted directory, none twice, and equal the recorded versions |
| Migrations.SuccessMeansAllApplied | src/db/migrator.js:28-43 | a successful runner leaves every file applied, and returns exactly the files it committed itself |
| Migrations.AnyRunnerCanFail | src/db/migrator.js:36-47 | a runner can be lost or fail at any moment: what was applied stays, nothing is added, and whoever waits can have the lock |
| Migrations.OneAtATime | src/db/migrator.js:15-46 | at most one runner is between lock and unlock, and a waiting runner can take the lock or its holder can move on |
| Migrations.NextIsNew | src/db/migrator.js:33 | recording a version never violates the primary key, as the next pending file is the first one not applied |
| Migrations.AppliedOnlyGrows | src/db/migrator.js:31-41 | nothing applied is ever taken back |
| Migrations.CanStillBeApplied | src/db/migrator.js:36-47 | after any failures and lost connections the directory can still be applied completely |
| MigrationRunner.ListMigrationFiles | src/db/migrator.js:7-10 | the listing has exactly the entries that end in .sql, each before the next by the first character in which they differ |
| Ordering.LessMeans | src/db/migrator.js:9 | a name sorts before another exactly if at the first place where they differ its character code is smaller, or it ends there |
| Ordering.AscendingUnique | src/db/migrator.js:9 | only one ascending list has given members, so all runners see the same order |
| MigrationRunner.MigrationDatabase.RunMigrations | src/db/migrator.js:12-48 | one runner applies the unapplied files, each before the next by the first difference of their names, up to the first that fails, all before it being sound, names that file, keeps the earlier ones, and gives back the lock; success leaves every version recorded |
| MigrationRunner.UnappliedMembers | src/db/migrator.js:24-26 | the pending files are exactly the listed files without a recorded version |
| TransactionQueries.FullListUnique | src/repositories/transaction.repository.js:44-66 | created_at and id order the rows completely: a list query has one answer |
| TransactionQueries.NewestFirst | src/repositories/transaction.repository.js:44-66 | earlier places hold rows at least as new, and of equal age the later id |
| TransactionQueries.PagesMakeTheList | src/lib/pagination.js:1-15 | pages 1 to totalPages, one after the other, are the whole list without gap or repeat, and each is non-empty with the same totals |
| TransactionQueries.TotalExactInside | src/repositories/transaction.repository.js:27 | the total is exact if and only if the page starts inside the list or the list is empty; past the end it is 0 |
| TransactionQueries.PageIsSlice | src/lib/pagination.js:1-15 | a page echoes the request, and its place k is place (page - 1) * limit + k of the list |
| TransactionQueries.LookupMeans | src/services/transaction.service.js:5-17 | the lookup answers with the stored row itself, for an admin and for the two parties; for anyone else as if it did not exist |
| TransactionQueries.ListedIffViewable | src/services/transaction.service.js:5-30 | some page of the list open to a requester shows a transaction if and only if the lookup by id would |
| TransactionQueries.EveryRequesterSeesTheirOwn | src/services/transaction.service.js:5-30 | in every sound database each requester's list exists, is unique, and its pages show exactly what the lookup by id shows |
| Amounts.AmountRoundTrip | frontend/src/utils/format.js:6-25 | reading back the grouped digits of n gives n if and only if a Number holds n (53-bit significand, below overflow); in particular for every n up to 2^53 |
| Amounts.ParsesToNearest | frontend/src/utils/format.js:22-25 | any other digits are read as a nearest Number, or as Infinity exactly from 2^1024 - 2^970 on |
| Amounts.NullWithoutDigits | frontend/src/utils/format.js:22-25 | an input is no amount exactly if it is missing or no character of it is a digit, and exactly then the field is left empty |
| Numbers.RoundIsNearest | frontend/src/utils/format.js:24 | no double is nearer to the digits' value than the one Number gives |
| Numbers.TiesToEven | frontend/src/utils/format.js:24 | halfway between two doubles the one with the even significand is taken |
| Amounts.ReformattingIsIdempotent | frontend/src/components/TransferForm.vue:66-69 | for every input, reformatting what the field shows changes nothing if and only if the digits typed do not overflow to Infinity |
| Amounts.FieldShows | frontend/src/components/TransferForm.vue:66-69 | the field shows nothing without a digit, the infinity sign on overflow, and otherwise grouped digits of a number that reads back as what was typed |
| Amounts.CommaPlaces | frontend/src/utils/format.js:6 | commas stand at every fourth place from the right and nowhere else |
| Amounts.PrintsNumbers | frontend/src/utils/format.js:6 | n is printed with digits and commas only, commas at every fourth place, no leading zero, and digits that denote n |
| Amounts.DigitAt | frontend/src/utils/format.js:6 | digit i from the right is the remainder by ten after i divisions by ten |
| Amounts.NoLeadingZero | frontend/src/utils/format.js:6 | a positive amount is printed without a leading zero |

## Left out

- Login, password hashing, tokens, HTTP routes, validation schemas, error-to-status mapping, sockets and user-interface code: foreign libraries or single-branch plumbing.
- NULL user ids and a NULL threshold: the service always passes them; a NULL amount is modelled.
- The pre-check for a taken username is a read before the registration's transaction; the model has the unique key that decides.
- The CHECKs on usernames and full names, and the updated_at triggers: they touch nothing that is proved here.
- Ledger listing by created_at: under overlapping transfers it need not be in chain order; only id order is, and that is what is proved.
- Receipt text: layout, date format and party names; a receipt carries the printed values, with parties by wallet id.
- Queue internals: backoff delays and the limit on stalled jobs; a stalled job is handed out again without limit.
- Recovery.BacklogDrains: the backlog is fixed while the rounds run, as are `now` and the rows outside it; ReceiptRounds.ScannedInTimeInEveryRun lets both move.
- Ordering: strings compare by character code, as JavaScript does for names in the Basic Multilingual Plane; UUIDs compare by their text.
- The wallet's own ledger list and the seeder: the same paging and the same inserts again.
