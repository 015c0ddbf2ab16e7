# VirtualMSSQL in Dafny

VirtualMSSQL is a SQLite extension that shows SQL Server tables as virtual tables. This project models the
parts of it that decide something, as Dafny code in the form the C code has, and proves what they are for.

- **Transactions** (`Server`, `Transaction`, `TransactionEnv`, `TransactionRuns`, `TransactionOutcome`,
  `TransactionCodes`): SQLite's transaction and savepoint callbacks on one pinned connection, with a driver that may
  answer every command with success, a transport failure, a timeout or another error. Proved over every run: savepoints
  behave as a stack of snapshots, commit and rollback are atomic, each connection is begun and ended at most once, and
  every result code is decided exactly by the replies.
- **Worker and pool** (`Worker`, `WorkerWakes`, `WorkerQueue`, `Pool`, `PoolReuse`, `PoolClass`): threads as program
  counters, one action per critical section or foreign call, and invariants over every interleaving, among them how a
  caller and the idle list come by a connection.
- **SQL text** (`Sql`, `SqlText`, `SqlRead`, `SqlTokens`): the pieces the builders append, their characters, the bounded
  buffer, and a reader from characters to lexemes to pieces. Proved: the characters are read as exactly the pieces
  appended, if and only if no name in them has a closing bracket and no number is an infinity or a NaN.
- **Pushdown** (`Plan`, `PlanLaws`, `PlanSql`, `PlanText`, `PlanBuild`, `Filter`, `Alignment`, `XFilter`, `Projection`,
  `Pushdown`, `Paging`, `Scans`): constraints become plan terms, SQL text with placeholders, a parameter vector and a
  column map. Proved: the characters sent read back as the plan's query, every placeholder is bound to the value of its
  own constraint, the rows SQLite ends with are those the constraints ask for, LIMIT gives the right page under an exact
  condition, and a scan from xBestIndex to the statements sent means what was asked.
- **Writes** (`DmlSql`, `DmlText`, `Dml`, `DmlEffect`, `DmlMade`, `KeyStash`, `StashRuns`, `StashOutcome`,
  `StashBatches`, `StableKey`): the choice of the stable key, the generated INSERT, UPDATE and DELETE, their effect on a
  keyed table when the server reads the characters sent, and over every run of xBestIndex, xRowid and xUpdate which row
  a write hits.
- **Codecs, cache, lexer** (`Decimal`, `Bytes`, `Identity`, `IdentityDecode`, `IdentityGrammar`, `Payload`,
  `PayloadGrammar`, `Fingerprint`, `MetaCache`, `Lexer`, `LexerSpans`, `Validator`, `ValidatorCase`, `Literals`): round
  trips, the exact texts and bytes the readers accept, corruption detection, the cache as a map, and the query validator
  by the characters of the query.

`Meta` and `Lists` hold what the others share.

## Premises

- The server: `SAVE TRANSACTION` may reuse a name and `ROLLBACK TRANSACTION name` goes to the latest mark of that
  name and keeps it; a failing statement dooms an open transaction (`XACT_ABORT ON`); closing or losing a connection
  rolls back what is open on it. A command that failed may have been carried out all the same. They are the branches
  of module `Server`.
- SQLite: values come to xFilter under the argv index their constraint was given; a constraint is dropped from its
  own checks only with an argv index and `omit`; comparisons of an integer column with a value it sees as an integer
  are integer comparisons, and NULL sorts lowest. On the server NULL also sorts lowest.
- The server's equality of key values is an equivalence, and the stable key's index is unique under it.
- A double is its 64 bits. `%.17g` writes digits, signs, a point or an exponent for a finite one, which `strtod` reads
  back, and a word beginning with in or na for the others. `FormatsExist` exhibits such a pair of functions. Character
  classes and lower-casing are parameters of the lexer.
- OFFSET with a negative number and FETCH of no rows are refused by the server. SQLite does not skip rows itself when
  the OFFSET was taken with `omit`.
- Text is a sequence of characters; UTF conversion is outside. Memory allocation succeeds.

## What the code does not do

Some promises hold only under a condition. The lemmas named state it, as an if-and-only-if unless said otherwise;
those behind a semicolon are concrete cases that fail.

- The table has one key stash, and xUpdate does not relate argv[0] to it (src/vms_vtab.c:72-77, 1315-1341). A write hits
  the row of the last xRowid, so it hits the row it is meant for if and only if that was the last one
  (`DeleteHitsExactly`, `UpdateOutcome`; `TwoRows`). When SQLite calls every xRowid before the first xUpdate, a DELETE of
  many rows takes away only the last of them (`TwoPassLosesRows`); with each xRowid right before its write it takes
  exactly the picked ones away (`OnePassTakesRows`). tests/test_r11.c:150-168 repeats its DELETE until no rows are left.
- The part map of the stash is filled only with the autocommit write context (src/vms_vtab.c:1261-1273). While every
  context of the table so far was made under a pin, no row is written unless the key is column 0 alone
  (`UnboundMapNamesColumnZero`, and the `Mapped` part of `WriteIs`). BEGIN followed by UPDATE is not such a run:
  xBestIndex makes the autocommit context before the pin exists.
- An infinity or a NaN is written as a word. The text of a statement is read by the server if and only if its floats are
  finite, and otherwise nothing changes (`UpdateReads`, `DeleteReads`, `InsertReads`; `InfinityIsLost`).
- The server cuts the page of LIMIT and OFFSET before SQLite tests the rows again, so a row that passes the WHERE and
  fails a test that was not pushed takes a place on the page. Every page of every table is right if and only if no such
  row may stand before a satisfying one (`LimitExactly`; `LimitLosesRows`); it is right when every test was pushed
  (`LimitPreservesMeaning`).
- A negative LIMIT drops the OFFSET with it. The result is right if and only if there was no row to skip
  (`NegativeLimit`; `NegativeLimitLosesOffset`).
- Names are put between brackets as they are. The text reads back as what was meant if and only if no name in it has a
  closing bracket (`PlanText.ReadPrint`, and for statements of finite numbers `DmlText.ReadPrint`;
  `BracketedNameIsLost`).
- A write context is recognised by its connection's address (src/vms_vtab.c:1227-1247). After a failed lazy BEGIN, in
  xUpdate or in xBestIndex, or when a new connection gets the address of a closed one, the next write runs outside the
  transaction (`EscapeExactly`; `FailedBeginEscapes`, `FailedBeginInBestIndexEscapes`, `ReusedAddressEscapes`).
  `CarefulNeverBypasses` gives a condition on the driver's answers that is sufficient for whole runs.
- A COMMIT that timed out is reported as BUSY although the server may have carried it out (`CommitOutcome`;
  `TimedOutCommitSaysBusy`). BUSY on any other reply means that nothing was committed. Nothing between the two row sets is ever durable.
- An unanswered XACT_STATE query lets a doomed transaction through xSync (`SyncExactly`; `DoomedPassesSync`).
- The completion wake goes to one sleeper (src/vms_odbc_worker.c:59-62). A wake can be missed after a run if and only if
  one is missed already or two submitters can come to sleep on unfinished jobs at once (`MissExactly`;
  `TwoWaitersLoseAWake`).
- With the worker gone, the queue is empty if and only if nobody pushed after its exit (`StopDrains`; `LatePushIsLost`).
- Closing a write lease without the pool leaves live_count too high, by the number of such closings (`CountersExact`;
  `DirectCloseLeaks`).
- payload_read takes a word that is not all there as all ones and reads its bytes again (src/vms_meta_cache.c:40-48), so
  the last column may be cut short of its flags or its length. `ColumnExactly` has both forms; the fingerprint check
  comes first.
- The identity decoder accepts one bar too many at the end of a token, lengths with blanks and signs, and anything
  between the n of a NULL and its colon (`DecodeExactly`, `LengthRead`).
- The identity decoder overflows on the least 64-bit integer, and on nothing else that was encoded (`RoundTrip`).
- An entry cached with no columns, or with one that cannot be read back, is reported corrupt
  (`OwnFingerprintNotCorrupt`, `PayloadRoundTrip`).
- An index with INCLUDE columns never qualifies as stable key, because their ordinal is 0 (`IncludeNeverChosen`;
  `IncludeLosesTheKey`). The header's comment names only width, nullability, computed columns and filters.
- The header of the lexer says that words beginning with XP and SP_EXECUTE are refused (src/vms_lexer.h:44-60). The
  list has neither (`ProcedureNamesPass`), and a bracketed name counts as the keyword it spells, so a query may begin with [select]
  (`BracketedSelectBegins`). `Validate` and `AcceptedExactly` state what is accepted.
- NULL tests get argv index 0, so SQLite tests them again; this changes no result (`RowMeans`).

## Model

| member | source | states |
|---|---|---|
| `Server.Classify` | src/vms_odbc_adapter.c:65-78 | an SQLSTATE is a transport failure exactly when its class is 08, a timeout exactly for HYT00 and HYT01, and every other class exactly for its own states |
| `Server.Latest` | src/vms_odbc_adapter.c:1476-1517 | the latest mark of a name, the one ROLLBACK TRANSACTION goes back to, or none |
| `Server.Answer` | src/vms_odbc_adapter.c:1404-1424 | a command the server cannot execute never succeeds, a dead connection always reports class 08, and a command that failed, timed out or not, may have been carried out or not |
| `Transaction.MarkNameInjective` | src/vms_vtab.c:1567-1567 | different savepoint levels get different mark names |
| `TransactionRuns.StepInv` | src/vms_vtab.c:1445-1620 | every callback with every driver answer keeps the wire discipline: active implies pinned, the session's nesting count is at most one and agrees with the flags, and the log of commands is ordered per connection |
| `TransactionRuns.PinInv` | src/vms_vtab.c:1373-1426 | pinning keeps the wire discipline, also when opening or priming fails |
| `TransactionRuns.BeginLazyInv` | src/vms_odbc_adapter.c:1430-1473 | the lazy BEGIN keeps the wire discipline and, when it succeeds, leaves an active connection |
| `TransactionRuns.FinishInv` | src/vms_odbc_adapter.c:1542-1586 | ending the transaction and closing the connection keeps the wire discipline |
| `TransactionOutcome.SingleFinalization` | src/vms_vtab.c:1373-1545 | in every run of callbacks, xBestIndex with its lazy BEGIN among them, per connection at most one BEGIN TRANSACTION takes effect, at most one end of transaction is sent, nothing is sent after it, and active implies pinned |
| `TransactionOutcome.SaveAligned` | src/vms_odbc_adapter.c:1476-1517 | SAVE TRANSACTION, also of a reused name, keeps the latest mark of every live level right and the marks in level order |
| `TransactionOutcome.RollbackAligned` | src/vms_odbc_adapter.c:1476-1517 | ROLLBACK TRANSACTION restores exactly the level's snapshot and keeps the older levels aligned |
| `TransactionOutcome.StepRefines` | src/vms_vtab.c:1445-1620 | every legal callback takes related states of the layer and of a plain snapshot stack to related states |
| `TransactionOutcome.SavepointsRefineSnapshots` | src/vms_vtab.c:1548-1620 | after every legal run of saves, releases, rollbacks and writes the open transaction's rows are those of the snapshot stack, although RELEASE sends nothing and stale marks stay |
| `TransactionOutcome.CommitOutcome` | src/vms_vtab.c:1485-1516 | after every legal run and for every reply the durable rows are the surviving writes if the COMMIT was carried out and the rows before BEGIN otherwise; OK is said exactly of a COMMIT that succeeded, and it was carried out; the unknown outcome is said exactly when the connection is left quarantined; BUSY means nothing was committed exactly if the COMMIT was not carried out or there was nothing to commit, and always when the reply is no timeout |
| `TransactionOutcome.TimedOutCommitSaysBusy` | src/vms_odbc_adapter.c:1565-1570 | a concrete run: a COMMIT carried out and then timed out is reported as BUSY with the row durable |
| `TransactionOutcome.WriteContextRefines` | src/vms_vtab.c:1216-1247 | making or reusing a write context moves no rows and, unless it bypasses the lazy BEGIN, ends in an active transaction or fails |
| `TransactionOutcome.RollbackOutcome` | src/vms_vtab.c:1520-1545 | ROLLBACK never changes the durable rows, in every run and whatever it returns |
| `TransactionCodes.EndExactly` | src/vms_odbc_adapter.c:1542-1586 | in every run COMMIT and ROLLBACK with a pin return OK exactly when SQLEndTran succeeded, the error of an unknown outcome exactly when the connection was lost or an active COMMIT failed other than by a timeout, and BUSY otherwise; one command is sent; the connection is retired, quarantined exactly with that error, unpinned exactly after a success, and still active exactly after a timeout |
| `TransactionCodes.BeginExactly` | src/vms_vtab.c:1373-1455 | in every run xBegin succeeds exactly when there was a pin, which stays as it was, or a new connection opens and can be pinned; a connection that cannot be pinned is closed again |
| `TransactionCodes.UpdateExactly` | src/vms_vtab.c:1284-1353 | in every run a write inside a transaction succeeds exactly when every command it sent succeeded, the last of which is the write |
| `TransactionCodes.SavepointExactly` | src/vms_vtab.c:1548-1580 | in every run xSavepoint succeeds exactly when there is a pin and every command it sent succeeded, the last of which sets the mark of the level |
| `TransactionCodes.RollbackToExactly` | src/vms_vtab.c:1594-1620 | in every run xRollbackTo with a pin sends one command, back to the mark of the level, and succeeds exactly when that does; without a pin nothing happens |
| `TransactionCodes.SyncCode` | src/vms_vtab.c:1459-1482 | in every run xSync accepts exactly without a pin, and with an active transaction that no answered XACT_STATE calls doomed |
| `TransactionCodes.GoodRunSucceeds` | src/vms_vtab.c:1284-1620 | when every reply is good, every callback of a legal run succeeds, and COMMIT makes the rows of the snapshot stack durable |
| `TransactionOutcome.SyncExactly` | src/vms_vtab.c:1459-1482 | after an xSync that said yes the transaction is open and not doomed exactly when the XACT_STATE query was answered |
| `TransactionOutcome.DoomedPassesSync` | src/vms_vtab.c:1459-1482 | a concrete run: after a statement error dooms the transaction, xSync with XACT_STATE unanswered says yes |
| `TransactionOutcome.CommitGate` | src/vms_vtab.c:1459-1516 | when every commit follows a successful xSync with an answered XACT_STATE, COMMIT is only ever sent while the transaction is open and not doomed |
| `TransactionOutcome.EscapeExactly` | src/vms_vtab.c:1216-1247 | a write becomes durable at once exactly when its table's context still names the pinned address while no BEGIN is active and the server carries the statement out |
| `TransactionOutcome.CarefulNeverBypasses` | src/vms_vtab.c:1227-1247 | when new transaction connections get addresses no context still names and every lazy BEGIN, also those of xBestIndex, is answered, no write ever bypasses the transaction |
| `TransactionOutcome.FailedBeginEscapes` | src/vms_vtab.c:1227-1247 | a concrete run: after one failed BEGIN the next write of the table is durable although the transaction is rolled back |
| `TransactionOutcome.FailedBeginInBestIndexEscapes` | src/vms_vtab.c:596-611 | a concrete run: a BEGIN that failed inside xBestIndex leaves the context bound, and the next write with every reply good is durable although the transaction is rolled back |
| `TransactionOutcome.ReusedAddressEscapes` | src/vms_vtab.c:1227-1247 | a concrete run: a connection at a reused address inherits the old write context and its first write escapes the transaction |
| `TransactionEnv.Environment.constructor` | src/vms_vtab.c:1373-1382 | the environment starts without a pinned connection |
| `TransactionEnv.Environment.Pin` | src/vms_vtab.c:1373-1426 | pinning changes the fields as the model's pin step does |
| `TransactionEnv.Environment.Begin` | src/vms_vtab.c:1445-1455 | xBegin does what the model's step does, result code included |
| `TransactionEnv.Environment.Context` | src/vms_vtab.c:1216-1247 | the write context inside a transaction is found or made as the model says |
| `TransactionEnv.Environment.BestIndex` | src/vms_vtab.c:596-611 | xBestIndex of a writable table makes the write context and ignores its failure |
| `TransactionEnv.Environment.Update` | src/vms_vtab.c:1284-1353 | a write inside a transaction does what the model's step does |
| `TransactionEnv.Environment.Savepoint` | src/vms_vtab.c:1548-1580 | xSavepoint does what the model's step does |
| `TransactionEnv.Environment.RollbackTo` | src/vms_vtab.c:1594-1620 | xRollbackTo does what the model's step does |
| `TransactionEnv.Environment.Sync` | src/vms_vtab.c:1459-1482 | xSync does what the model's step does |
| `TransactionEnv.Environment.Commit` | src/vms_vtab.c:1485-1516 | xCommit does what the model's step does, and with a pin returns OK exactly for a success and the unknown outcome exactly for a lost connection or an active COMMIT that failed other than by a timeout; the pin is gone |
| `TransactionEnv.Environment.Rollback` | src/vms_vtab.c:1520-1545 | xRollback does what the model's step does, and with a pin returns OK exactly for a success and the unknown outcome exactly for a lost connection; the pin is gone |
| `TransactionEnv.Environment.SendCommand` | src/vms_odbc_adapter.c:1371-1383 | one command on the pinned connection: its effect, the log and the quarantine flag |
| `TransactionEnv.Environment.StartLazily` | src/vms_odbc_adapter.c:1430-1473 | at most one BEGIN, and active only after a nesting count of zero |
| `TransactionEnv.Environment.Doomed` | src/vms_odbc_adapter.c:1520-1540 | the doomed query answers as the model says |
| `TransactionEnv.Environment.EndTransaction` | src/vms_odbc_adapter.c:1542-1586 | SQLEndTran with its three-way result: OK exactly for a success, unknown exactly for a lost connection or an active COMMIT that failed other than by a timeout; a success unpins, the unknown outcome quarantines |
| `TransactionEnv.Environment.Callback` | src/vms_vtab.c:1445-1620 | any one callback does what the model's step does, result code included |
| `TransactionEnv.Drive` | src/vms_vtab.c:1284-1620 | a whole run of callbacks on one environment ends in the state and with the result codes of the run, with the command log ordered, the nesting at most one and active implying pinned |
| `Worker.ExactlyOnceInOrder` | src/vms_odbc_worker.c:34-112 | in every interleaving jobs run one at a time, in push order, each exactly once; a call returns only after its job ran; a sleeping worker with work or a stop has a wake coming |
| `Worker.StopDrains` | src/vms_odbc_worker.c:43-51 | with the worker thread gone, the queue is empty, and the finished jobs are those pushed, exactly if nobody pushed after its exit; then every job pushed is marked done |
| `Worker.LatePushIsLost` | src/vms_odbc_worker.c:84-94 | a concrete run: a job pushed after the worker's exit never runs |
| `Worker.NoLostWake` | src/vms_odbc_worker.c:96-112 | with at most one sleeping submitter at a time, no submitter ever sleeps on a finished job |
| `WorkerWakes.MissExactly` | src/vms_odbc_worker.c:59-112 | after any run, some continuation makes a submitter sleep on a finished job exactly if one does already or some continuation has two submitters asleep on unfinished jobs at once |
| `WorkerWakes.PairCanMiss` | src/vms_odbc_worker.c:59-112 | from every state with two sleepers on unfinished jobs a schedule is constructed in which one of them misses its wake |
| `WorkerWakes.MissHadPair` | src/vms_odbc_worker.c:59-112 | a wake missed in the continuation of a run was preceded by two sleepers on unfinished jobs |
| `Worker.Progress` | src/vms_odbc_worker.c:34-66 | in every state that is not settled the worker has a step to take or a wake owed to it is possible |
| `Worker.StepsLowerRank` | src/vms_odbc_worker.c:34-66 | every step of the worker and every wake owed to it lowers a rank, so without new pushes it settles |
| `Worker.SettledServesEveryone` | src/vms_odbc_worker.c:34-112 | once settled, with single waiters and no push after the exit, every job pushed has run and no blocking call sleeps |
| `Worker.SettledCallsReturn` | src/vms_odbc_worker.c:96-163 | once settled, under the same conditions, every call that has not returned returns with its next step, and so does a stop |
| `Worker.CallMoves` | src/vms_odbc_worker.c:96-134 | a blocking call asks under the lock and sleeps, a posted one polls; each returns exactly when it finds its job done, and only its own steps and the worker's wake move it |
| `Worker.TwoWaitersLoseAWake` | src/vms_odbc_worker.c:59-62 | a concrete run: with two sleeping submitters the single wake goes to the wrong one and the other sleeps for good |
| `WorkerQueue.JobQueue.Push` | src/vms_odbc_worker.c:84-94 | pushing on the linked queue appends to its contents |
| `WorkerQueue.JobQueue.TakeNext` | src/vms_odbc_worker.c:39-56 | the loop head takes the oldest job, exits on a stop with an empty queue, or sleeps |
| `Pool.AfterInv` | src/vms_pool.c:77-167 | all invariants of the pool, the pin and the calls in flight hold after every interleaving |
| `Pool.OneOwner` | src/vms_pool.c:77-167 | every open connection is in exactly one of the idle list, one lease, the pin, or one call in flight |
| `Pool.CountersExact` | src/vms_pool.c:77-167 | idle_count is the list's length and within capacity; live_count is idle plus leased plus the calls in flight that still count, plus leases closed behind the pool's back |
| `Pool.OnlyFitHandedOut` | src/vms_odbc_adapter.c:1086-1114 | in every interleaving no connection that is quarantined or inside a transaction comes to a caller or is idle |
| `PoolReuse.VerifiedBeforeReuse` | src/vms_pool.c:88-136 | in every interleaving a connection that comes to a caller was verified in that very acquire, answered and was fit, or was opened by that very acquire |
| `PoolReuse.LeasedExactly` | src/vms_pool.c:77-136 | a connection comes to a caller exactly when it passes its verification in that acquire or has just been opened by it, so one that is fit and answers is reused |
| `PoolReuse.StoredExactly` | src/vms_pool.c:138-157 | a connection comes into the idle list exactly when a release that verified it finds room |
| `PoolReuse.CleanExactly` | src/vms_pool.c:138-157 | a release goes on to store its connection exactly when that passes its verification |
| `PoolReuse.OpeningExactly` | src/vms_pool.c:88-114 | an acquire opens a connection exactly when the idle list is empty or what it took from it did not pass |
| `PoolReuse.ClosedExactly` | src/vms_pool.c:77-167 | a step closes exactly the connections that do not pass, that there is no room for, whose pin failed, came second or ended, and leases their owner closes |
| `PoolReuse.IdleIsVouched` | src/vms_pool.c:138-157 | in every interleaving an idle connection, and one about to be stored, answered and was fit in a release, and no caller has had it since |
| `PoolReuse.FailedNeverHeldAgain` | src/vms_pool.c:98-166 | a connection that fails its verification, in acquire or in release, is held by nobody ever again, whatever follows |
| `PoolReuse.QuarantinedForever` | src/vms_odbc_adapter.c:1086-1114 | after a quarantine, whatever follows, the connection is never idle and never comes to a caller |
| `PoolReuse.TransactExactly` | src/vms_odbc_adapter.c:1086-1114 | a connection counts as inside a transaction exactly as long as its owner says so |
| `Pool.DirectCloseLeaks` | src/vms_vtab.c:553-570 | a concrete run: closing a write lease without the pool leaves live_count too high for good |
| `PoolClass.VmsPool.constructor` | src/vms_pool.c:24-40 | an empty pool of the given capacity |
| `PoolClass.VmsPool.TakeIdle` | src/vms_pool.c:88-95 | acquire's first critical section takes the head of the idle list and counts it out, and is the AcquireTake step of the interleaving model on these fields |
| `PoolClass.VmsPool.StoreIdle` | src/vms_pool.c:146-157 | release's critical section stores a connection exactly when there is room, and is the ReleaseStore step of the interleaving model on these fields |
| `PoolClass.VmsPool.Discount` | src/vms_pool.c:105-107 | live_count goes down by one and the idle list stays, as in the Uncount step of the interleaving model |
| `PoolClass.VmsPool.Acquire` | src/vms_pool.c:77-136 | acquire reuses the newest idle connection if it verifies, and otherwise opens one, with live_count counting the dropped and the new one; what it leaves is what the steps of the interleaving model, played one after the other, come to |
| `PoolClass.VmsPool.Release` | src/vms_pool.c:138-167 | release keeps the connection at the head of the list exactly when it is clean and there is room, and otherwise counts it out; what it leaves is what the steps of the interleaving model, played one after the other, come to |
| `PoolClass.PlayAcquire` | src/vms_pool.c:77-136 | the steps of an acquire that nothing interrupts: the head of the idle list is taken and leased if it answers, and otherwise closed and a new connection opened, with the counters exact |
| `PoolClass.PlayRelease` | src/vms_pool.c:138-167 | the steps of a release that nothing interrupts: the connection goes to the head of the idle list if it answers and there is room, and is closed and counted out otherwise |
| `Plan.Taken` | src/vms_plan.c:63-107 | the constraints that become terms: at most 32, in order, each provably safe to push |
| `Plan.CompileMask` | src/vms_plan.c:43-61 | the projection mask is the used columns and those of constraints and ORDER BY, or everything when bit 63 is set |
| `Plan.CompileTerms` | src/vms_plan.c:63-107 | the constraint loop yields the terms, usage entries and argument count of the declarative plan |
| `Plan.CompileOrder` | src/vms_plan.c:128-146 | ORDER BY is consumed exactly when it has 1 to 32 terms, all on integer columns, and then wholly |
| `Plan.CompileLimits` | src/vms_plan.c:148-165 | LIMIT and OFFSET take the next argument slots, OFFSET only behind a LIMIT |
| `Plan.Compile` | src/vms_plan.c:31-173 | the compiler's loops produce the declarative plan and usage |
| `Plan.ArgvIndexesExact` | src/vms_plan.c:84-165 | the argv indexes in use are exactly 1 to nargs, each used by one constraint; a term carries its own constraint's index; the other constraints get none |
| `PlanLaws.TakenExactly` | src/vms_plan.c:63-107 | the terms come from exactly the first 32 usable constraints that are NULL tests of a column or comparisons of an integer column |
| `PlanLaws.UsageExactly` | src/vms_plan.c:84-101 | a comparison taken gets the next argv index in constraint order, a NULL test taken gets none, both are marked omit, and the other constraints on columns get nothing |
| `PlanLaws.TermExactly` | src/vms_plan.c:84-101 | the k-th term has the column, the operator and the argument of the k-th constraint taken |
| `PlanLaws.LimitsExactly` | src/vms_plan.c:148-165 | the plan has a limit exactly when there is a LIMIT, and reads the first; it has an offset exactly when an OFFSET comes behind a LIMIT, and reads the last such one |
| `PlanLaws.MaskExactly` | src/vms_plan.c:43-61 | a column is projected exactly when colUsed has it or bit 63, or a constraint or the ORDER BY names it |
| `PlanLaws.OrderExactly` | src/vms_plan.c:128-146 | the ORDER BY is taken whole exactly when it has 1 to 32 terms, all on integer columns, and not at all otherwise |
| `Sql.SqlBuffer.Add` | src/vms_plan.c:198-206 | appending never passes the capacity; once a piece does not fit the planned text cannot fit |
| `Sql.SqlBuffer.Finish` | src/vms_plan.c:198-206 | the whole planned text, to the character, exactly when it and its terminator fit |
| `SqlRead.PiecesLex` | src/vms_plan.c:198-261 | text made of lexemes and spaces is read as these lexemes exactly when no bracketed name has a closing bracket and every number is one, with the server's rule that a doubled closing character stands for itself |
| `SqlRead.PiecesFail` | src/vms_dml.c:127-137 | with plain names, text is not read at all exactly when an infinity or a NaN stands in it |
| `SqlTokens.TokenizeChars` | src/vms_plan.c:198-361 | the characters of the pieces appended are read as these pieces exactly when no name in them has a closing bracket and every number is one; with plain names and a number that is none they are no text of the grammar |
| `SqlTokens.PlaceholdersAre` | src/vms_plan.c:314-357 | the question marks of the text outside brackets and literals are the placeholders appended |
| `PlanText.ReadPrint` | src/vms_plan.c:263-361 | every well-formed query is read back from the characters of its text, placeholders numbered in text order, exactly when no name in it has a closing bracket |
| `PlanText.PrintParse` | src/vms_plan.c:263-361 | what is parsed from a token list is the query whose print is that list |
| `PlanText.BracketedNameIsLost` | src/vms_plan.c:208-234 | a concrete query: the column a] is not read back |
| `PlanBuild.ItemOf` | src/vms_plan.c:236-261 | the projection of a column always names that column |
| `PlanBuild.ItemExactly` | src/vms_plan.c:236-261 | a column is cast exactly when it is a char, varchar, text or xml text in any case, to nvarchar(max) exactly when it is big; it goes through the spatial method asked for exactly when it is spatial; otherwise it is read by name |
| `PlanBuild.AddItems` | src/vms_plan.c:275-296 | the projection loop appends the projected columns in table order |
| `PlanBuild.AddConds` | src/vms_plan.c:314-338 | the WHERE loop appends one condition per term, joined by AND |
| `PlanBuild.AddKeys` | src/vms_plan.c:340-345 | the ORDER BY loop appends the keys in order, with their directions |
| `PlanBuild.BuildSql` | src/vms_plan.c:263-361 | the result is the characters of the plan's query exactly when the identifiers are valid and the text fits, and nothing otherwise |
| `PlanBuild.PlainColumnsRead` | src/vms_plan.c:263-361 | with valid identifiers and no closing bracket in a column name the text of every plan reads back as its query |
| `Filter.BindTerms` | src/vms_vtab.c:692-744 | binding fails exactly when a pushed comparison got a value that is no integer; otherwise each term has its own value |
| `Filter.BindWhere` | src/vms_vtab.c:861-866 | the term loop appends the values of the comparison terms in term order |
| `Filter.BindPage` | src/vms_vtab.c:867-872 | OFFSET's value comes before FETCH's |
| `Filter.BindParams` | src/vms_vtab.c:857-872 | the parameter vector is limit for TOP, then the WHERE values, then the page values |
| `Filter.ParamsInOrder` | src/vms_vtab.c:857-872 | a limit comes before the values of the terms without an order, and behind them and an offset with one |
| `Alignment.ParametersAlign` | src/vms_vtab.c:857-872 | as many parameters as question marks in the text outside brackets and literals, and never more than nargs; each condition's placeholder is bound to the value of the constraint the condition was made from, FETCH and OFFSET to those of LIMIT and OFFSET |
| `PlanText.QueryPlaceholders` | src/vms_plan.c:314-357 | the question marks of the text outside brackets and literals number the conditions' and the page's placeholders |
| `Alignment.WhereAligned` | src/vms_vtab.c:861-866 | the parameter of a comparison is the value of its constraint |
| `Alignment.CondFrom` | src/vms_plan.c:314-338 | the k-th condition of the text comes from the k-th taken constraint and its placeholder has that constraint's argument number |
| `XFilter.Attempt` | src/vms_vtab.c:849-884 | one attempt sends the characters and the vector of the adjusted plan, or nothing when the text cannot be built |
| `XFilter.Run` | src/vms_vtab.c:658-976 | full scan exactly when the call uses more than 32 arguments, and never without LIMIT; error exactly for a pushed comparison with a value that is no integer, an invalid identifier or a text of 2048 characters or more; otherwise one statement, or two with a retry, each the text of the plan's query, read back as that query exactly when its names are plain, with every placeholder rightly bound |
| `XFilter.FitsExactly` | src/vms_plan.c:184-194 | a compiled plan is kept exactly when the call uses at most 32 arguments, which it always does without LIMIT |
| `Scans.BestIndex` | src/vms_vtab.c:574-655 | xBestIndex hands on the compiled plan with the key columns in its mask, and tells SQLite the usage and whether the ORDER BY is consumed |
| `Scans.Scan` | src/vms_vtab.c:574-976 | from the call of xBestIndex to the statements sent: full scan and error exactly as in Run, and whatever the server answers to the characters of a statement, SQLite ends with exactly the satisfying rows, sorted by a consumed ORDER BY, or with the page asked for when no stray row may come first |
| `Projection.BuildColMap` | src/vms_vtab.c:962-974 | the column map sends a projected column to its place among the projected ones and the others to -1 |
| `Projection.MapExactly` | src/vms_vtab.c:962-1050 | the map is one to one and in table order on the projected columns, and the others read as NULL |
| `Projection.AddKeyColumns` | src/vms_vtab.c:594-611 | the columns of the stable key join the projection |
| `Projection.ProjectionFaithful` | src/vms_vtab.c:1031-1102 | every column in colUsed, the constraints, the ORDER BY or the stable key is projected, and reading it through the map gives the table's own value |
| `Pushdown.ErrorExactly` | src/vms_vtab.c:728-744 | xFilter reports an error exactly when a pushed comparison got a value that is no integer |
| `Pushdown.WhereIsAll` | src/vms_plan.c:314-338 | the three-valued AND is true exactly when every condition is |
| `Pushdown.CondMeans` | src/vms_plan.c:314-338 | a bound condition is true on the server exactly when the constraint holds for SQLite, NULLs included |
| `Pushdown.WhereMeans` | src/vms_plan.c:314-338 | the generated WHERE keeps exactly the rows on which all taken constraints hold |
| `Pushdown.UnownedTaken` | src/vms_plan.c:98-101 | a constraint SQLite stops testing was taken into the plan |
| `Pushdown.RowMeans` | src/vms_plan.c:63-107 | remote WHERE and local recheck together keep exactly the rows satisfying every constraint |
| `Pushdown.OrderMeans` | src/vms_plan.c:340-345 | the server's order by the printed keys is SQLite's order by the ORDER BY terms |
| `Pushdown.SelectionMeans` | src/vms_plan.c:63-146 | of all the rows the statement selects SQLite keeps exactly those satisfying every constraint, sorted by a consumed ORDER BY, LIMIT and OFFSET among the constraints or not |
| `Pushdown.PushdownPreservesMeaning` | src/vms_plan.c:63-146 | for every table, constraint list without a limit in effect and server answer SQLite ends with exactly the rows satisfying all constraints, each as often as in the table, and sorted by the whole ORDER BY when it was consumed |
| `Pushdown.TextPreservesMeaning` | src/vms_plan.c:63-361 | the same when the server reads the characters sent, for column names without a closing bracket |
| `Paging.WindowIs` | src/vms_plan.c:347-353 | the page the server cuts is that of the LIMIT and OFFSET constraints |
| `Paging.RightIfStraysLast` | src/vms_plan.c:347-353 | if no row that passes the WHERE and fails another test may stand before a satisfying one, the result is the page of the satisfying rows in an order the ORDER BY allows |
| `Paging.WrongIfStrayBefore` | src/vms_plan.c:347-353 | from any two rows in the wrong order a table and an answer are built whose result is not the page |
| `Paging.LimitExactly` | src/vms_plan.c:148-165 | LIMIT with a consumed ORDER BY gives the right page of every table and every answer exactly if no such row may stand before a satisfying one |
| `Paging.LimitPreservesMeaning` | src/vms_plan.c:148-165 | when every test was taken into the WHERE the result is the right page |
| `Paging.LimitLosesRows` | src/vms_plan.c:148-165 | a concrete call: with a test on a text column beside LIMIT 1 some table is answered wrongly |
| `Paging.NegativeLimit` | src/vms_vtab.c:756-759 | with a negative LIMIT the result is right exactly if the OFFSET is not positive or no row satisfies the constraints |
| `Paging.NegativeLimitLosesOffset` | src/vms_vtab.c:756-759 | a concrete call: LIMIT -1 OFFSET 1 on a table of one row returns the row |
| `Pushdown.CompiledPlanOk` | src/vms_plan.c:31-173 | the plan of any call on a table of 1 to 32 columns can be printed |
| `Meta.FindColumn` | src/vms_dml.c:61-68 | the first column of a name, case aside, or -1 |
| `DmlText.ReadPrint` | src/vms_dml.c:191-361 | every INSERT, UPDATE and DELETE is read back from the characters of its text, literals included, exactly when no name in it has a closing bracket and every number is one; with plain names and an infinity or a NaN its text is no statement |
| `DmlText.PrintParse` | src/vms_dml.c:191-361 | what is parsed from a token list is the statement whose print is that list |
| `DmlText.InfinityIsLost` | src/vms_dml.c:133-137 | a concrete statement: the literal inf is not read |
| `Dml.AddSets` | src/vms_dml.c:272-291 | the SET loop appends one assignment per settable column, or reports a bad value |
| `Dml.AddKeyTests` | src/vms_dml.c:297-309 | the WHERE loop appends one equality per key part, or reports a missing column or bad value |
| `Dml.AddNames` | src/vms_dml.c:203-219 | the first INSERT loop lists the columns |
| `Dml.AddValues` | src/vms_dml.c:227-248 | the second INSERT loop lists the values of the same columns |
| `Dml.BuildInsert` | src/vms_dml.c:191-256 | the result is the characters of the INSERT exactly when 1 to 64 columns are listed, every value converts and the text fits, and nothing otherwise |
| `Dml.BuildUpdate` | src/vms_dml.c:258-321 | the result is the characters of the UPDATE exactly when every value converts, something is to be set, the key columns exist and the text fits, and nothing otherwise |
| `Dml.BuildDelete` | src/vms_dml.c:323-361 | the result is the characters of the DELETE exactly when the key columns exist, every key value converts and the text fits, and nothing otherwise |
| `Dml.FormatsExist` | src/vms_dml.c:133-137 | there are formats that meet what is asked of them |
| `Dml.WrittenSound` | src/vms_dml.c:121-189 | the literal written for a text is a literal of the grammar exactly unless the text stands for an infinity or a NaN |
| `Dml.UpdateReads` | src/vms_dml.c:258-321 | on a table whose names are plain the text of an UPDATE is read as that UPDATE if the floats set and in the key are finite, and as nothing otherwise |
| `Dml.DeleteReads` | src/vms_dml.c:323-361 | on a table whose names are plain the text of a DELETE is read as that DELETE if the floats in the key are finite, and as nothing otherwise |
| `Dml.InsertReads` | src/vms_dml.c:191-256 | on a table whose names are plain the text of an INSERT is read as that INSERT if the floats listed are finite, and as nothing otherwise |
| `DmlEffect.LiteralMeans` | src/vms_dml.c:121-189 | the literal written for a text that stands for no infinity or NaN is read by the server as the value the text means in its column |
| `DmlEffect.OneMatch` | src/vms_dml.c:297-309 | at most one row of a keyed table has a given key |
| `DmlEffect.UpdateHitsTheRow` | src/vms_dml.c:258-321 | UPDATE changes only the row whose key equals the given one, none if a part is NULL; there every column present gets its value unless it is in the key, an identity, computed, or a rowversion or timestamp in any case, and these never change |
| `DmlEffect.DeleteHitsTheRow` | src/vms_dml.c:323-361 | DELETE removes exactly the row with the given key and keeps the others in order; without such a row, or with a NULL part, nothing happens |
| `DmlEffect.InsertFillsColumns` | src/vms_dml.c:191-256 | as many values as names; every column present gets its own value, but identity, computed and rowversion or timestamp columns, and key columns without a text or with an empty one, keep the server's default |
| `DmlEffect.KthValueKthColumn` | src/vms_dml.c:203-248 | the k-th value of an INSERT belongs to the k-th listed column |
| `DmlEffect.WritableMeans` | src/vms_dml.c:17-22 | a column may be written exactly when it is no identity, not computed and its type is neither rowversion nor timestamp in any case |
| `DmlMade.UpdateMade` | src/vms_dml.c:258-321 | an UPDATE is made exactly when there is something to set, every value to set can be one of its column, and every part of the key has a column and a text it can be |
| `DmlMade.DeleteMade` | src/vms_dml.c:323-361 | a DELETE is made exactly when every part of the key has a column and a text it can be |
| `DmlMade.InsertMade` | src/vms_dml.c:191-256 | an INSERT is made exactly when it lists 1 to 64 columns and every value listed can be one of its column |
| `DmlMade.IntegerRead` | src/vms_dml.c:163-175 | blanks, a sign and digits are read as their number, or the nearest one of 64 bits, whatever follows; without a digit nothing is read |
| `StashRuns.VirtualTable.constructor` | src/vms_vtab.c:72-77 | nothing stashed and the part map all zero |
| `StashRuns.VirtualTable.MapParts` | src/vms_vtab.c:1264-1272 | the part map is filled with the column of every key part |
| `StashRuns.ShownColumn` | src/vms_vtab.c:1127-1133 | the loop finds the key part's column if the scan reads it |
| `StashRuns.VirtualTable.Context` | src/vms_vtab.c:1216-1281 | the write context for every reply; the part map is filled with the first autocommit context only |
| `StashRuns.VirtualTable.Keep` | src/vms_vtab.c:1104-1153 | xRowid keeps the key texts part by part, until one is not shown, NULL or binary, and nothing without a context |
| `StashRuns.VirtualTable.Get` | src/vms_vtab.c:1195-1210 | the text of the first part mapped to the column, or NULL |
| `StashRuns.VirtualTable.AllKeys` | src/vms_dml.c:297-309 | the key texts the builders ask the stash for |
| `StashRuns.VirtualTable.Send` | src/vms_vtab.c:1284-1341 | xUpdate sends the statement built from the stash and the values, whatever argv[0] is |
| `StashRuns.VirtualTable.Drive` | src/vms_vtab.c:1104-1353 | a whole run of calls on one table ends in the state, and sends the texts, of the run |
| `KeyStash.KeepingMeans` | src/vms_vtab.c:1126-1153 | the key is kept exactly when every part is shown, not NULL and not binary, and then each text is that of its part |
| `KeyStash.TextKept` | src/vms_vtab.c:1138-1151 | of a text its first 159 bytes are kept, up to a NUL among them; the whole text exactly when it is no longer and has no NUL |
| `KeyStash.NamesExactly` | src/vms_vtab.c:1138-1151 | a row whose key values the stash keeps whole names exactly the rows with its key |
| `StashOutcome.StashIsLast` | src/vms_vtab.c:1104-1153 | after every run the stash holds the key of the row of the last xRowid, and is empty if there was none, no context existed then, or a part could not be kept |
| `StashOutcome.MapIs` | src/vms_vtab.c:1227-1273 | after every run the part map is that of the key if the autocommit context exists, and all zero otherwise |
| `StashOutcome.ContextsAre` | src/vms_vtab.c:1216-1281 | after every run the autocommit context exists exactly if some call outside a transaction could make it, and that of a pin exactly if the last call under a pin made it |
| `StashOutcome.UsableExactly` | src/vms_vtab.c:1216-1281 | after every run a write has a context exactly if its own is made ready, or it is not under a pin and an autocommit context was made before |
| `StashOutcome.WriteIs` | src/vms_vtab.c:1284-1341 | after every run a write sends the statement with the stashed row's key, or nothing, or one with a NULL in its key, or one with an infinity or a NaN that the server cannot read |
| `KeyStash.ReadPrinted` | src/vms_vtab.c:1139-1141 | a printed 64-bit key value is read back |
| `StashOutcome.UpdateOutcome` | src/vms_vtab.c:1334-1341 | after every run an UPDATE changes exactly the row whose key the last xRowid kept, and there every column but those of the key and the identity, computed and rowversion ones; nothing changes if there is none or it cannot be sent, whatever row was meant |
| `StashOutcome.DeleteHitsExactly` | src/vms_vtab.c:1315-1331 | after every run, a DELETE meant for a row removes that row and no other exactly if the last xRowid kept the key of that row, the context can be used, the part map can be asked for it, the text fits, and the floats of the key are finite |
| `StashOutcome.DeleteHit` | src/vms_vtab.c:1315-1331 | the row a DELETE hits is removed and the others keep their order |
| `StashOutcome.DeleteMiss` | src/vms_vtab.c:1315-1331 | a DELETE that hits no row leaves the table as it was |
| `StashOutcome.InsertOutcome` | src/vms_vtab.c:1332-1334 | an INSERT adds at the end the row of its values, with the server's default where the server keeps the column or a key text is missing or empty, if the context can be used, the text fits and its floats are finite; otherwise nothing changes |
| `StashBatches.TwoPassLosesRows` | src/vms_vtab.c:1104-1331 | with every xRowid before the first xUpdate, a DELETE of many rows removes only the last of them, after any run with an autocommit context |
| `StashBatches.OnePassTakesRows` | src/vms_vtab.c:1104-1331 | with each xRowid right before its xUpdate, a DELETE of any distinct rows in any order removes exactly those, and the others keep their order, after any run with an autocommit context |
| `StashBatches.TwoRows` | src/vms_vtab.c:1315-1331 | a concrete run on two rows, with concrete formats: the DELETE meant for the first removes the second |
| `KeyStash.UnboundMapNamesColumnZero` | src/vms_vtab.c:1227-1247 | while every write context of the table was made under a pin some key part reads as NULL, so no row is written, exactly unless the key is column 0 alone and kept |
| `StableKey.KeyCtx.constructor` | src/vms_meta.c:295-296 | the accumulator starts empty |
| `StableKey.KeyCtx.FinishCurrent` | src/vms_meta.c:202-217 | closing a group replaces the best key only by a first one or by a primary key over a unique index |
| `StableKey.KeyCtx.Row` | src/vms_meta.c:219-253 | one catalog row updates the accumulator |
| `StableKey.PartsInOrder` | src/vms_meta.c:243-252 | with ascending ordinals the key is as wide as the last ordinal and every part is at its own |
| `StableKey.FoldGroups` | src/vms_meta.c:219-253 | the row-by-row fold sees exactly the groups |
| `StableKey.BestIsTheChoice` | src/vms_meta.c:202-217 | the fold's key is that of the first qualifying primary key, else of the first qualifying unique index |
| `StableKey.Choose` | src/vms_meta.c:255-302 | the primary key if it qualifies, else the first qualifying unique index, and nothing exactly when no group qualifies |
| `StableKey.IncludeNeverChosen` | src/vms_meta.c:243-247 | an index with an INCLUDE column is never chosen, whatever the other indexes are |
| `StableKey.IncludeLosesTheKey` | src/vms_meta.c:243-247 | a concrete catalog: a suitable primary key with an INCLUDE column leaves the table without a stable key |
| `Decimal.PrintValue` | src/vms_identity.c:80-85 | reading printed digits gives the number |
| `Identity.Put` | src/vms_identity.c:70-72 | a piece is appended exactly when it and one more character fit |
| `Identity.Encode` | src/vms_identity.c:65-125 | succeeds exactly when the token's length plus 2 is at most the capacity, and then the buffer holds the token and its terminator |
| `Identity.FieldReads` | src/vms_identity.c:148-221 | a field followed by anything is read back with exactly the rest left, except the least 64-bit integer, which overflows |
| `Identity.RoundTrip` | src/vms_identity.c:134-229 | decoding a token gives its parts back, exactly unless one is the least 64-bit integer |
| `Identity.TokenInjective` | src/vms_identity.c:65-125 | distinct part lists have distinct tokens, the least 64-bit integer included |
| `IdentityDecode.WalkDigits` | src/vms_identity.c:166-169 | the digit loop gives the number or overflows exactly when it exceeds 64 bits |
| `IdentityDecode.WalkHex` | src/vms_identity.c:199-204 | the hex loop gives the bytes or refuses |
| `IdentityDecode.WalkField` | src/vms_identity.c:148-221 | one field is read as defined |
| `IdentityDecode.Run` | src/vms_identity.c:134-229 | the pointer walk decodes exactly as the field-by-field definition does |
| `IdentityGrammar.FieldExactly` | src/vms_identity.c:148-221 | a field is accepted exactly when the text begins with n and a colon, i with a sign, digits of at most 2^63 - 1 and a colon, or s or b with a length of at most 15 characters, a colon and twice as many lower-case hex digits; and it stands for exactly that value |
| `IdentityGrammar.OverflowExactly` | src/vms_identity.c:158-177 | overflow is reported exactly for an integer field whose digits exceed 2^63 - 1 |
| `IdentityGrammar.DecodeExactly` | src/vms_identity.c:134-229 | a token is accepted exactly when it is v1, a bar and at most max fields with bars between them, one more bar at the end allowed; and it stands for exactly those parts |
| `IdentityGrammar.LengthRead` | src/vms_identity.c:190-196 | a length is blanks, a sign and digits, read modulo 2^32 with a minus and as the largest 32-bit number when it is larger |
| `Bytes.WordBack` | src/vms_meta_cache.c:31-48 | a 32-bit word is read back from its four bytes |
| `Payload.Size` | src/vms_meta_cache.c:50-60 | the exact number of payload bytes, or -1 for more than 512 columns |
| `Payload.Write` | src/vms_meta_cache.c:62-93 | a buffer of payload_size bytes is filled completely with the payload |
| `Payload.Read` | src/vms_meta_cache.c:95-142 | the reading loop accepts and returns what the definition does |
| `Payload.ColumnReads` | src/vms_meta_cache.c:109-138 | a column followed by anything is read back exactly when it has a name, a type name and a supported type |
| `Payload.PayloadRoundTrip` | src/vms_meta_cache.c:62-142 | a written payload is read back as the same columns exactly when there are any and each is readable |
| `PayloadGrammar.ColumnExactly` | src/vms_meta_cache.c:109-138 | a column is accepted exactly when two texts of 1 to 127 and 1 to 63 bytes, a supported type code, a flag word, a length and two bytes stand there, the last two words perhaps missing at the end of the payload; and it is exactly the column they stand for |
| `PayloadGrammar.ReadExactly` | src/vms_meta_cache.c:95-142 | a payload is accepted exactly when it has the letters VMSC, version 1, a count of 1 to 512 and so many columns, and they are what is returned |
| `Fingerprint.ShadowCheck` | src/vms_meta_cache.c:171-182 | accepts exactly payloads of at least 12 bytes with the stored fingerprint |
| `Fingerprint.KnownHashes` | src/vms_meta_cache.c:144-169 | the fingerprints of no byte and of one byte 97, as numbers |
| `Fingerprint.XorBits` | src/vms_meta_cache.c:163-166 | the exclusive or has exactly the bits in which the two numbers differ |
| `Fingerprint.MultiplyBack` | src/vms_meta_cache.c:163-166 | multiplying by the odd prime modulo 2^64 can be undone |
| `Fingerprint.StateInjective` | src/vms_meta_cache.c:163-166 | a step with a fixed byte is injective in the state |
| `Fingerprint.ByteInjective` | src/vms_meta_cache.c:163-166 | a step from a fixed state is injective in the byte |
| `Fingerprint.OneByteChangesHash` | src/vms_meta_cache.c:144-169 | payloads that differ in exactly one byte have different fingerprints, for every length |
| `Fingerprint.CorruptionDetected` | src/vms_meta_cache.c:171-182 | the shadow check rejects every single-byte corruption of a payload it accepts |
| `MetaCache.KeyInjective` | src/vms_meta_cache.c:250-253 | tables with different valid names have different cache keys |
| `MetaCache.Cache.constructor` | src/vms_meta_cache.c:205-240 | an empty store |
| `MetaCache.Cache.Put` | src/vms_meta_cache.c:315-354 | the payload and fingerprint are stored under the key unless there are more than 512 columns |
| `MetaCache.Cache.Get` | src/vms_meta_cache.c:255-313 | miss, corrupt, stale, fresh or drift, with the columns read back |
| `MetaCache.Cache.Drop` | src/vms_meta_cache.c:356-368 | exactly the entry of the key is gone |
| `MetaCache.PutRefines` | src/vms_meta_cache.c:315-354 | a put on the store is a put on the map |
| `MetaCache.GetRefines` | src/vms_meta_cache.c:255-313 | a lookup in the store answers as the map does |
| `MetaCache.DropRefines` | src/vms_meta_cache.c:356-368 | a drop on the store is a drop on the map |
| `MetaCache.CacheIsMap` | src/vms_meta_cache.c:250-368 | after every sequence of operations on valid identifiers the store represents the map |
| `MetaCache.LookupsAgree` | src/vms_meta_cache.c:255-313 | after every sequence of operations every lookup answers as the plain map does |
| `MetaCache.LookupExactly` | src/vms_meta_cache.c:255-313 | after every sequence of operations a lookup is a miss exactly when the table is not in the map, corrupt exactly when the fingerprint is not that of its columns or they cannot be read back, and otherwise stale without a live fingerprint, fresh with an equal and drifted with a different one, with the map's columns |
| `MetaCache.OwnFingerprintNotCorrupt` | src/vms_meta_cache.c:255-354 | an entry put with its own fingerprint is reported corrupt exactly when it has no columns or one that cannot be read back; otherwise it is found with its columns, stale exactly without a live fingerprint, fresh exactly with its own and drifted exactly with another |
| `MetaCache.DriftMeansDifferent` | src/vms_vtab.c:366-430 | DRIFT against the live columns' fingerprint means the stored columns differ from them |
| `MetaCache.TooWideIsStale` | src/vms_meta_cache.c:144-169 | a live table of more than 512 columns has no fingerprint, so no entry is fresh or drifted against it |
| `Lexer.WalkGap` | src/vms_lexer.c:38-53 | the skipping loop stops where the definition says, or refuses an unclosed comment |
| `Lexer.WalkString` | src/vms_lexer.c:87-95 | a string ends at the first quote that is not doubled, or is refused |
| `Lexer.CopyWord` | src/vms_lexer.c:73-79 | the first 63 characters of the word, each lowered, and no more |
| `Lexer.ScanToken` | src/vms_lexer.c:63-163 | the token at a position |
| `Lexer.LexerState.constructor` | src/vms_lexer.c:10-16 | the lexer starts at the beginning with no open parenthesis |
| `Lexer.LexerState.Next` | src/vms_lexer.c:28-164 | the next token and position, with the parenthesis depth; fails on a closing parenthesis too many |
| `Lexer.SkipsOnlyGap` | src/vms_lexer.c:38-53 | what is skipped is only whitespace and closed comments |
| `Lexer.TokenAdvances` | src/vms_lexer.c:28-164 | every token strictly advances, and gaps between tokens are only whitespace and closed comments |
| `LexerSpans.TokenSpans` | src/vms_lexer.c:63-163 | the token at a position is the one whose characters stand there: a bracketed name up to its first closing bracket, a string up to the first quote that is not doubled, a longest number or word, a pair of operator characters, or one sign; and there is none exactly when none stands there |
| `LexerSpans.StringEndExactly` | src/vms_lexer.c:87-95 | a string ends exactly at the first quote that is not doubled |
| `LexerSpans.NextExactly` | src/vms_lexer.c:28-164 | the next token stands behind the longest run of whitespace and closed comments; the end comes exactly with the last character; a failure means a comment never closed or characters that are no token |
| `Validator.Keyword` | src/vms_lexer.c:179-189 | recognises exactly the forbidden keywords and INTO |
| `Validator.Rest` | src/vms_lexer.c:228-266 | the loop behind the first token decides as the contract on all tokens does |
| `Validator.Validate` | src/vms_lexer.c:191-278 | accepts exactly the queries of 1 to 32768 characters that tokenize wholly, begin with SELECT, WITH or an opening parenthesis, have no later forbidden token, a semicolon only last, balanced parentheses and at least two tokens |
| `ValidatorCase.TokensCover` | src/vms_lexer.c:228-266 | the tokens of a query cover all of it but whitespace and closed comments, each with the characters of its kind |
| `ValidatorCase.WordIsWritten` | src/vms_lexer.c:166-189 | a word counts as a keyword exactly when its characters, brackets aside, are those of the keyword in any case |
| `ValidatorCase.AcceptedExactly` | src/vms_lexer.c:191-278 | by the characters of the query: accepted exactly with 1 to 32768 of them, covered by at least two tokens, the first spelling SELECT or WITH in any case or an opening parenthesis, no later word spelling a banned keyword in any case, a semicolon only last, and never more parentheses closed than opened, as many in the end |
| `ValidatorCase.HeaderWordsBanned` | src/vms_lexer.h:44-60 | every keyword the header names, and INTO, is banned, but for the two prefixes |
| `ValidatorCase.CaseDecidesNothing` | src/vms_lexer.c:191-278 | queries that differ only in the case of their letters get the same verdict |
| `Validator.ProcedureNamesPass` | src/vms_lexer.c:166-189 | no word beginning with xp_ or sp_ is forbidden |
| `Validator.BracketedSelectBegins` | src/vms_lexer.c:64-82 | a query may begin with the bracketed name [select] |
| `Literals.PrintLiteral` | src/vms_dml.c:138-159 | the printing loop emits N, a quote, the text with its quotes doubled, and a quote |
| `Literals.StringEndsThere` | src/vms_lexer.c:87-95 | inside a printed literal the string ends exactly at its own closing quote |
| `Literals.LiteralIsOneToken` | src/vms_lexer.c:84-102 | a printed literal followed by anything but a quote is lexed as one string token spanning exactly the literal, and undoubling gives the text back |
| `Literals.LiteralInjective` | src/vms_dml.c:138-159 | different texts have different literals |

## Left out

- LIMIT without a consumed ORDER BY, and OFFSET without ORDER BY: the text appends TOP behind WHERE, which is no T-SQL statement.
- Multi-value and single-value IN terms: the compiler's second constraint loop and the contradiction markers are not modelled.
- Plans with more than 32 arguments: xFilter then scans the whole table; only that outcome is stated.
- Tables with more than 32 columns: the mask has 32 bits while the loops go to 62.
- Constraints on the rowid: xRowid answers with a column value or the cursor's position, which is no property of the table.
- Spatial and cast projections: they are printed, but the conversion of their values is foreign.
- Floating-point parts of identity tokens: the encoder's and decoder's kind f.
- Tables that join a transaction at a deeper savepoint level than others, and sv_count, which decides nothing.
- Concurrent xCommit and xRollback from two host connections on one environment, and cursors open on the pinned connection.
- ODBC, Win32, UTF conversion, credentials and memory calls: only their outcomes appear.
- Deadline threads and the cancel path of the worker.
- Row decoding, materialization, limits, logging, connection strings, registration and the tools: one branch or one loop each.
- Trigger lookup, object kind and column queries of src/vms_meta.c: foreign queries with a row copy.
- Pushdown.PushdownPreservesMeaning: covers constraint lists without IN and rowid constraints, with no limit in effect, on tables of 1 to 32 columns; Paging has the limits, and the other shapes have no clear contract in the code.
- Alignment.ParametersAlign: covers plans without LIMIT, or with LIMIT and a consumed ORDER BY, for the same reason.
- Identity.RoundTrip: needs texts and blobs shorter than 2^32 bytes, because the decoder reads lengths as 32-bit numbers.
- Payload.Write: needs a buffer of exactly payload_size bytes, as both callers pass; the space check inside payload_write counts 10 bytes where 14 are written.
- Worker.NoLostWake: needs single waiters, because with two the claim is false (TwoWaitersLoseAWake).
- Literals.LiteralIsOneToken: needs that N is no whitespace character.
- Plan.CompileMask: needs at most 32 columns, because the source shifts a 32-bit one by the column number.
- Plan.Compile: needs at most 32 columns, for the same reason.
- Projection.AddKeyColumns: needs at most 32 columns, for the same reason.
- Projection.ProjectionFaithful: needs at most 32 columns, for the same reason.
- Pushdown.CompiledPlanOk: needs 1 to 32 columns, for the same reason.
- Pushdown.TextPreservesMeaning: covers what PushdownPreservesMeaning does, and column names without a closing bracket, because with one the text stands for something else (PlanText.ReadPrint).
- IdentityDecode.WalkField: refuses kind f, which the source reads as a double.
- IdentityDecode.Run: refuses tokens with kind f, which the source reads as a double.
- KeyStash.NamesExactly: needs finite floats, key texts of at most 159 bytes without NUL and values of their column's type, because the stash keeps no more; without it the row named is the one whose key is the text kept (DeleteHitsExactly).
- StashOutcome.DeleteHitsExactly: needs a table whose key columns exist, whose names have no closing bracket, and whose key is unique, which is what a stable key is; read-only tables refuse every write.
- StashOutcome.UpdateOutcome: needs the same of the table.
- StashBatches.TwoPassLosesRows: needs rows whose key the stash keeps whole and whose DELETE fits, because the others are not written at all.
- StashBatches.OnePassTakesRows: needs the same of the rows, and no row picked twice.
- Validator.ProcedureNamesPass: needs that lower-casing keeps lower-case letters.
- Validator.BracketedSelectBegins: needs that lower-casing keeps lower-case letters and that an opening bracket is no whitespace.
- Pushdown.SelectionMeans: covers the same lists and tables, and LIMIT with a consumed ORDER BY.
- PlanBuild.BuildSql: covers plans without LIMIT, or with LIMIT and a consumed ORDER BY, because otherwise TOP is appended behind WHERE, which is no T-SQL statement.
- XFilter.Run: covers the same plans.
- Paging.LimitExactly: needs a LIMIT of at least 1 and an OFFSET of at least 0, because the server refuses the others, and a consumed ORDER BY; an OFFSET that SQLite gives before the LIMIT is not taken into the plan and stays with SQLite.
- Paging.LimitPreservesMeaning: needs the same ORDER BY, and a server that answers.
- DmlEffect.UpdateHitsTheRow: needs finite floats, because otherwise the text is not read and nothing changes (Dml.UpdateReads, StashOutcome.UpdateOutcome).
- DmlEffect.DeleteHitsTheRow: needs finite floats in the key, for the same reason (Dml.DeleteReads, StashOutcome.DeleteHitsExactly).
- DmlEffect.InsertFillsColumns: needs finite floats, for the same reason (Dml.InsertReads, StashOutcome.InsertOutcome).
- DmlEffect.LiteralMeans: needs a text that stands for no infinity or NaN, for the same reason (Dml.WrittenSound).
- Scans.Scan: covers what XFilter.Run does, on tables of 1 to 32 columns; its clauses on the meaning need column names without a closing bracket, and with a LIMIT that it is not negative and that no stray row may come first, which is exact (Paging.LimitExactly, Paging.NegativeLimit).
- Scans.BestIndex: needs 1 to 32 columns, because the source shifts a 32-bit one by the column number.
- PlanLaws.MaskExactly: needs at most 32 columns, for the same reason.
- ValidatorCase.CaseDecidesNothing: needs that lower-casing is idempotent, keeps the character classes and moves no sign the lexer looks for, which the C library's functions do.
- ValidatorCase.WordIsWritten: needs keywords of less than 63 characters, as all of the list are.
- DmlMade.UpdateMade: needs columns with different names, which a table has.
- DmlMade.InsertMade: needs columns with different names, which a table has.
- PoolReuse.LeasedExactly: needs that every connection has one owner, which holds after every interleaving (Pool.OneOwner).
- TransactionCodes.GoodRunSucceeds: needs good replies, because with others EndExactly and its companions say what is returned.
- IdentityGrammar.FieldExactly: has no kind f, which the source reads as a double.
- IdentityGrammar.DecodeExactly: has no kind f, for the same reason.
