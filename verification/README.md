# One logical table over heap, lake and delta

The tierdb DuckDB extension shows one keyed table whose rows live in three places:
a hot Postgres heap (tier key at or above the cut-line T), a cold lake (tier key
below T), and a delta overlay of upserts and tombstones that overrides the lake.
Writes arrive as chunks of rows, are routed row by row, and run inside one Postgres
transaction on a connection that every DuckDB transaction shares. This project
models that machinery and proves that it behaves like a single table.

`dafny verify dfyconfig.toml` checks everything.

## How the model is laid out

| file | what it holds |
|---|---|
| `core.dfy` | what is assumed of `tierdb-core`: routing, plans, retention, lake statements |
| `rows.dfy`, `payload.dfy` | reading key and tier off a JSON row, json columns, the payloads the sinks build |
| `jsontype.dfy` | which column types count as json |
| `dml.dfy` | a chunk as a function from tables to tables, with its early exits and deferred lake batch |
| `exact.dfy`, `refine.dfy` | the same without loops: closed forms and acceptance |
| `failing.dfy` | how a chunk fails: first bad row, refused statement, statement counts |
| `store.dfy`, `relational.dfy` | the UNION ALL read and the effect of insert, delete and update on it |
| `simulate.dfy` | tiered against direct mode, chunk by chunk and over runs |
| `pieces.dfy`, `chunking.dfy` | an update in many chunks: each with its own T, and against the same update in one chunk |
| `runs.dfy` | whole runs of chunks and of the lake worker |
| `witness.dfy` | inputs at which the store does not behave like one table |
| `session.dfy`, `connection.dfy` | the Postgres session as functions, and the `Conn` object with its row loops |
| `txnspec.dfy`, `transaction.dfy` | a DuckDB transaction and the transaction manager, as functions and as objects |
| `acquire.dfy` | when a scan is served and what it leaves in the pin table |
| `interleave.dfy`, `frozen.dfy` | interleaved runs of any transactions on the shared connection, frozen reads |
| `committed.dfy` | the layers joined: a committed transaction on the merged view |
| `ledger.dfy` | where every pin row is, over all interleavings: held, lost with a write transaction, or left for good |
| `serial.dfy` | one transaction after the other: pin conservation, failing COMMIT |
| `lakeexec.dfy`, `retry.dfy`, `sink.dfy` | the lake retry loop, its rule in plain terms, and a sink taking one chunk |
| `projection.dfy`, `typename.dfy` | generated scan SQL and type names, with readers for both |

Every method that changes state is proved equal to a function of the old state; the
results are then proved about those functions.

## Assumptions

`tierdb-core` is not part of this model. `core.dfy` and `dml.dfy` fix the little that
is needed of it, with this evidence:

- hot means tier key >= T, and no cut-line means hot: `tierdb-core-ffi/src/scan.rs:184-185`, `tierdb-core-ffi/src/write.rs:164-166`
- the read is hot heap rows, plus cold lake rows without a delta entry, plus cold delta rows with op 0: `tierdb-core-ffi/src/scan.rs:200-209`, `test/sql/tierdb_read.test:15-60`; a direct table has no overlay: `test/sql/tierdb_direct.test:57-65`
- without a committed lake snapshot the lake leg is absent, here an empty lake: `tierdb-core-ffi/src/scan.rs:182-189`, `test/sql/tierdb_read.test:51-60`
- the delta keeps the newest entry of each key: `test/sql/tierdb_write.test:77-80`
- plans with `keep_heap = false`: tiered sends cold rows to the delta, mirrored sends everything to the heap, direct sends cold rows to the lake: `test/sql/tierdb_write.test:15-33`, `test/sql/tierdb_write.test:119-135`, `test/sql/tierdb_direct.test:67-119`
- a mirrored heap delete has no floor, since a mirrored heap holds rows below T as well
- a cold write strictly below the retention line is rejected: `test/sql/tierdb_write.test:43-50`
- `encode_pk` is injective, so a key is the list of its column cells: texts in the delta, NULL, array and object cells as well in heap and lake; tables have a primary key
- one lake upsert statement puts its rows in by key, later rows winning; one lake delete removes the listed keys below T
- whether a heap insert refuses or replaces an existing key is a parameter; every result holds for both
- Postgres: a refused statement aborts the open transaction, COMMIT of an aborted transaction rolls back and reports success, a COMMIT or ROLLBACK that reports failure leaves no transaction behind and commits nothing

Failures are inputs: `Ctx.fail` names the Postgres statement of a chunk that is
refused, `Reply`, `Ending` and `Answers` say how each other call is answered. The JSON
parser, the tier-key text encoding and which array or object key cells the heap takes
are parameters of the table schema.

## What turns out not to hold

- The comment at `src/storage/tierdb_transaction_manager.cpp:28-29` says the connection state resets on the next transaction. It does not: after a COMMIT that reports failure the next transaction gets no BEGIN, all its chunks are committed at once and its ROLLBACK undoes nothing. A rolled-back transaction restores its start if and only if the connection's flag was clear at its start or its chunks change nothing (`Serial.RollbackRestoresIff`, `Serial.FailedCommitBreaksNextRollback`).
- A statement refused while a reader joins the write transaction makes the writer's COMMIT publish nothing and still report success (`Interleaving.WriterCommits`, `Interleaving.RefusedReaderVoidsCommit`).
- A cached scan need not have its pin row: a reader that takes its pin inside another transaction's write transaction loses the row when that one is aborted or rolled back, and goes on reading at the pin. This is the only way to lose it (`Ledger.PinRowIffNotLost`, `Ledger.RollbackLosesReadersPin`).
- Pins are not always conserved. A scan that fails after its pin insert, inside a write transaction that is then committed, leaves a row that nobody releases, also when the failing transaction is a reader that was itself rolled back (`Ledger.ReadersErrorLeaksPin`, `Serial.CommittedErrorLeaksPin`); with one writer, and no release inside its transaction by somebody who held a pin before, this is exactly what is left behind (`Ledger.OneWriterPins`). Such a release leaves its row when the writer rolls back (`Ledger.UndoneReleaseLeaksPin`). `Ledger.PinTableUnchangedIff` covers every run.
- Tiered and direct mode accept different chunks in three cases only: the tiered delta refuses a cold row whose key columns it cannot read, NULL for example, a direct table without its catalog refuses everything, and a heap that refuses duplicates still knows rows that have gone below T, which the two heaps may differ in (`Simulation.TieredDirectSimulation`, `Simulation.NullKeyDiverges`, `Simulation.HiddenKeyDiverges`).
- Splitting an UPDATE that writes each new key once changes what it does exactly when a row written by an earlier chunk is taken by a later one: with each chunk reading its own T the removals then do not precede the writes (`Pieces.RemovalsThenWritesExactly`), and with one T the update, accepted split or whole, differs in acceptance or result from the same update in one chunk (`Chunking.ChunkedIsWholeExactly`, `Witness.HandOverWitness`).
- With a json or jsonb key column an upsert and the tombstone of the same row can go by different delta keys: an accepted insert and then an accepted delete of its own routing key leave the row visible (`Witness.JsonKeyMissesItsRow`); the key agrees for every row if and only if no key column is json (`Rows.KeyAgreementExact`). For the tier see `Rows.TierAgreementExact`.
- An accepted insert can show one key twice without meeting any older row, by carrying the key on both sides of the seam (`Relational.InsertRefines`, `Witness.KeyTwiceWitness`).

## Model

| member | source | states |
|---|---|---|
| Rows.ReadKey | tierdb-core-ffi/src/write.rs:174-178 | The key is read exactly when every key column has a scalar text; otherwise the error is that of the first column that has none. |
| Failing.KeyTexts | tierdb-core-ffi/src/write.rs:17-25 | A key is read as the texts of its columns: strings bare, numbers as printed, booleans as words; an absent or NULL column is missing, an array or object unsupported. |
| Failing.TierTexts | tierdb-core-ffi/src/write.rs:159-163 | A tier key is the encoding of its column's text; absent or NULL, array or object, and unencodable each have their own error. |
| Failing.KeyCells | tierdb-core-ffi/src/write.rs:187-192 | A heap or lake row is keyed by NULL for an absent or NULL column, by the text of a scalar, and by the value of an array or object. |
| Rows.NormalizeJsonColumns | tierdb-core-ffi/src/write.rs:39-53 | The in-place loop over the columns computes `Normalize`; what that means is `NormalizePointwise`. |
| Rows.NormalizePointwise | tierdb-core-ffi/src/write.rs:39-53 | Normalisation adds and drops no field, reparses each json column once, and leaves every other column alone. |
| JsonType.JsonTypeNames | tierdb-core-ffi/src/write.rs:31-35 | A column is json exactly when its type is json or jsonb in any capitalisation, with blanks around and anything from a parenthesis on. |
| Rows.TombstoneKeepsKey | tierdb-core-ffi/src/write.rs:104-110 | A tombstone payload holds the key columns and nothing else, and reads back the key of its row. |
| Rows.KeyAgreement | tierdb-core-ffi/src/write.rs:155-179 | When no routing column is json, the key and tier an upsert computes after normalisation equal those a delete computes from the routing payload. |
| Rows.KeyAgreementExact | tierdb-core-ffi/src/write.rs:39-53 | The key an upsert goes by equals the key its tombstone goes by, for every row and routing payload, if and only if no key column is json. |
| Rows.TierAgreementExact | tierdb-core-ffi/src/write.rs:155-173 | The same for the tier: it agrees for every row if and only if the tier column is not json or reparsing never changes what a text encodes to. |
| Rows.JsonKeyWitness | tierdb-core-ffi/src/write.rs:155-179 | A row carrying every routing column whose two keys are both readable and differ. |
| Dml.SplitPairsMeans | tierdb-core-ffi/src/write.rs:252-268 | An update payload splits exactly when every pair has both parts, order kept; otherwise the error is that of the first incomplete pair, the old key looked for first. |
| Exact.DeleteFoldExact | tierdb-core-ffi/src/write.rs:328-384 | An accepted removal leg takes hot keys out of the heap above the floor, adds one tombstone per cold key, or batches the keys for the lake, and does nothing else. |
| Exact.WriteFoldExact | tierdb-core-ffi/src/write.rs:153-195 | An accepted write leg puts each normalised row in the one place its plan names, the last row of a key winning. |
| Failing.DeleteStops | tierdb-core-ffi/src/write.rs:328-384 | A delete stops at the first row it cannot remove, with that row's error, and exactly the rows before it are removed. |
| Failing.InsertStops | tierdb-core-ffi/src/write.rs:153-195 | An insert stops at the first row it cannot write, a duplicate heap key included, with that row's error, and exactly the rows before it are written. |
| Failing.UpdateStopsRemoving | tierdb-core-ffi/src/write.rs:270-289 | An update that cannot remove an old row writes nothing. |
| Failing.UpdateStopsWriting | tierdb-core-ffi/src/write.rs:270-289 | An update that cannot write a new row has done all removals and the writes before that row. |
| Failing.RefusedAtOnce | tierdb-core-ffi/src/write.rs:255-268 | A malformed pair, or a key column that is no column of the table, is refused before any row is looked at, tables unchanged. |
| Failing.RefusedStatementFails | tierdb-core-ffi/src/write.rs:180-204 | A refused statement, the lake lock included, ends its chunk right there with that error, and a chunk that would not run so many statements is not affected. |
| Failing.StatementsRun | tierdb-core-ffi/src/write.rs:142-205 | An accepted chunk runs one Postgres statement for each row of heap and delta, and one lock for each leg with a lake batch. |
| Simulation.AcceptedIffFits | tierdb-core-ffi/src/write.rs:169-191 | With Postgres granting everything, and a direct table having its catalog, a chunk is accepted if and only if every row parses, is not expired, and meets no duplicate heap key; tables of the other modes need no catalog. |
| Simulation.NoCatalogIffUnserved | tierdb-core-ffi/src/write.rs:64-77 | A chunk is answered with a missing catalog if and only if the table is direct and has none, hot-only chunks included; nothing has been executed then. |
| TieredStore.ReadIsViewIffPlaced | tierdb-core-ffi/src/scan.rs:200-209 | The UNION ALL read shows no key twice if and only if no key lies on both sides of the seam, and then it is the view row for row. |
| TieredStore.OverlayReadIsReplay | tierdb-core-ffi/src/scan.rs:200-209 | Lake rows without a delta entry plus op-0 delta rows are what replaying every delta write over the lake, in order, would leave below T. |
| TieredStore.EveryDeltaHasALog | tierdb-core-ffi/src/scan.rs:200-209 | Every delta arises from some log of writes, so the replay result covers all deltas. |
| Refinement.UpdateLands | tierdb-core-ffi/src/write.rs:270-294 | All removals of an update chunk take effect before any of its writes, in heap, delta and lake alike. |
| Relational.UpdateExact | tierdb-core-ffi/src/write.rs:252-295 | For any accepted update the read stays free of duplicates if and only if no new image crosses the seam into a row that stays or another image, and then the view loses exactly the rows hit and gains the images. |
| Relational.UpdateRefines | tierdb-core-ffi/src/write.rs:252-295 | Live old keys, distinct new keys and no new key equal to an untouched live key give view = (view minus old keys) plus new images, simultaneously, in tiered and direct mode. |
| Relational.InsertRefines | tierdb-core-ffi/src/write.rs:142-205 | The read stays free of duplicates exactly when no image crosses the seam into a live row or another image, and then the view gains the images; for distinct keys that means no key is live on the other side. |
| Relational.DeleteRefines | tierdb-core-ffi/src/write.rs:306-396 | Any accepted delete removes exactly the keys requested on the side where they live; live routing keys are all removed; nothing else moves. |
| Relational.DeleteSparesStaleRows | tierdb-core-ffi/src/write.rs:307-315 | The floor keeps a heap row that has gone below T when its key is deleted. |
| Relational.MirroredUpdateRefines | tierdb-core-ffi/src/write.rs:252-295 | A mirrored update acts on the heap as on one table, whatever the tiers, and leaves delta and lake alone. |
| Simulation.EqualViewsAreAlike | tierdb-core-ffi/src/write.rs:172-204 | Well-placed tiered and direct stores have equal views if and only if they agree side by side, which is the simulation relation. |
| Simulation.TieredDirectSimulation | tierdb-core-ffi/src/write.rs:172-204 | From alike stores each table accepts exactly the chunks that fit what a reader sees, the tiered one also needing readable cold keys, the direct one its catalog, and each heap its hidden keys clear; so they agree on a chunk exactly when these exceptions do, and are alike again after acceptance. |
| Simulation.TieredDirectRuns | tierdb-core-ffi/src/write.rs:142-205 | From alike stores a whole run is accepted chunk by chunk on both sides or neither if and only if the exceptions agree on every chunk, and then the stores end alike. |
| Simulation.NullKeyDiverges | tierdb-core-ffi/src/write.rs:173-187 | A cold row with a NULL key is refused by the delta and taken by the lake. |
| Simulation.HiddenKeyDiverges | tierdb-core-ffi/src/write.rs:188-193 | Equal views, one hidden heap row below T: the same hot insert is refused by the tiered table and taken by the direct one. |
| Chunking.ChunkedIsWhole | src/storage/tierdb_update.cpp:36-83 | When all chunks read the same T and none removes a row an earlier one wrote, chunk by chunk and whole update agree in acceptance, heap, delta and lake. |
| Chunking.ChunkedIsWholeExactly | src/storage/tierdb_update.cpp:36-83 | For an update whose chunks read the same T, that writes each new key once and is accepted split or whole, acceptance and result coincide if and only if nothing is handed over. |
| Pieces.RemovalsThenWritesExactly | src/storage/tierdb_update.cpp:36-83 | An accepted update in chunks, each routed by the T it read, that writes each new key once: all removals take effect before all writes if and only if no chunk takes back a row an earlier one wrote. |
| Witness.HandOverWitness | src/storage/tierdb_update.cpp:36-83 | Two accepted one-row chunks after which the merged view lacks a row that the same update in one chunk shows. |
| Witness.KeyTwiceWitness | tierdb-core-ffi/src/write.rs:142-205 | An accepted insert of one key on both sides of the seam, after which the UNION ALL read shows it twice. |
| Witness.JsonKeyMissesItsRow | tierdb-core-ffi/src/write.rs:155-187 | Under a json key column an accepted insert and an accepted delete of its routing key, after which the cold read still shows the row. |
| Runs.ChunkSafe | tierdb-core-ffi/src/write.rs:155-194 | Accepted or not, in any mode, every delta entry a chunk writes, overwritten later or not, and every lake row and key it sends has a tier key below the T and not below the retention line it read; the delta changes by exactly those entries. |
| Runs.RunDeltaSafe | tierdb-core-ffi/src/write.rs:169-186 | Every delta write of a run is safe for the very chunk that made it, and these writes in order are the whole change of the delta. |
| Runs.RunLakeSafe | tierdb-core-ffi/src/write.rs:169-187 | Every lake statement of a run is safe for the chunk it came from, removals by updates included. |
| Runs.RunKeyUniqueIffAdmissible | tierdb-core-ffi/src/write.rs:142-205 | Over any run of chunks, inserts repeating a key included, and worker steps, the read is free of duplicates throughout if and only if every event is admissible. |
| Runs.OffloadKeepsPlacement | tierdb-core-ffi/src/scan.rs:200-209 | When rows move to the lake while T rises, the read stays free of duplicates exactly when no row that stays hot meets a cold row that only the new T brings in. |
| Runs.OffloadKeepsView | tierdb-core-ffi/src/scan.rs:200-209 | Moving exactly the rows that go cold keeps the read as it is if and only if no other delta entry covers one of them and the cold rows brought in belong to keys that move. |
| Connection.Conn.DeleteRows | tierdb-core-ffi/src/write.rs:297-396 | The row loop on the connection leaves exactly the tables, statement count, delta writes, lake statements and error of `DeleteLeg`, and aborts only on a refused statement. |
| Connection.Conn.WriteRows | tierdb-core-ffi/src/write.rs:142-205 | The same for `WriteLeg`; whether the heap takes an array or object key cell is a parameter of the table. |
| Connection.Conn.FinishLeg | tierdb-core-ffi/src/write.rs:197-204 | No batch, no lock and no statement; otherwise the catalog, then the lock, then one statement. |
| Connection.SplitAll | tierdb-core-ffi/src/write.rs:255-268 | The splitting loop returns both lists or the first missing part. |
| Connection.Conn.InsertChunk | tierdb-core-ffi/src/write.rs:112-140 | An insert chunk inside or outside a transaction has the effect of `RunChunk`. |
| Connection.Conn.DeleteChunk | tierdb-core-ffi/src/write.rs:207-233 | The same for a delete chunk. |
| Connection.Conn.UpdateChunk | tierdb-core-ffi/src/write.rs:235-295 | The same for an update chunk: nothing executed on a malformed pair, no lake statement when either leg fails. |
| Connection.Conn.TxnBegin | tierdb-core-ffi/src/catalog.rs:33-42 | Idempotent; the flag is set only when BEGIN is granted. |
| Connection.Conn.TxnCommit | tierdb-core-ffi/src/catalog.rs:44-53 | Publishes the pending state and clears the flag; on failure the flag stays set. |
| Connection.Conn.TxnRollback | tierdb-core-ffi/src/catalog.rs:55-64 | Discards the pending state and clears the flag; on failure the flag stays set. |
| Connection.Conn.AcquireScan | tierdb-core-ffi/src/scan.rs:40-77 | Joins an open write transaction, otherwise pins in its own and commits it, or rolls it back on any error. |
| Acquire.OwnScan | tierdb-core-ffi/src/scan.rs:40-77 | Outside a write transaction a scan is served if and only if every call is granted; its pin row is then committed, otherwise there is neither scan nor row; no transaction is left and no table data changes. |
| Acquire.JoinedScan | tierdb-core-ffi/src/scan.rs:55-62 | Inside an open write transaction only a refused query, a rejection or a failed rendering deny the scan; the pin row is pending, also after a failed rendering, and a refused query aborts the transaction. |
| Acquire.FirstScanIsKept | src/storage/tierdb_transaction.cpp:16-28 | The first scan of a table reads the cut-line of that moment and is kept together with its pin, other tables' scans staying as they are. |
| Connection.Conn.PinAndRender | tierdb-core-ffi/src/scan.rs:79-123 | A cut-line gives a pin row holding the pair read, no cut-line gives no pin. |
| Connection.Conn.ReleasePin | tierdb-core-ffi/src/scan.rs:125-130 | Deletes the pin row in whatever transaction is open. |
| Transaction.TierDBTransaction.GetPinnedScan | src/storage/tierdb_transaction.cpp:16-28 | A cached scan makes no call; a new one is cached together with its pin. |
| Transaction.TierDBTransaction.ReleasePins | src/storage/tierdb_transaction.cpp:30-41 | Clears both caches first, then releases in order up to the first refusal. |
| Transaction.TierDBTransaction.EnsureWriteTxn | src/storage/tierdb_transaction.cpp:43-49 | At most one BEGIN; the flag is set only after it. |
| Transaction.TierDBTransaction.CommitWrite | src/storage/tierdb_transaction.cpp:51-57 | Clears the flag whatever the COMMIT answers; no call for a transaction that never wrote. |
| Transaction.TierDBTransaction.RollbackWrite | src/storage/tierdb_transaction.cpp:59-65 | The same for ROLLBACK. |
| Transaction.TransactionManager.CommitTransaction | src/storage/tierdb_transaction_manager.cpp:17-42 | Commit, rollback on failure, release, forget; the error returned is the first one met. |
| Transaction.TransactionManager.RollbackTransaction | src/storage/tierdb_transaction_manager.cpp:44-58 | Rollback, release, forget, errors ignored. |
| Interleaving.ManagerIsSteps | src/storage/tierdb_transaction_manager.cpp:17-58 | The manager's calls are an end step and one release step per pin, so the results over interleavings cover them. |
| Interleaving.FirstWriteBegins | src/storage/tierdb_transaction.cpp:43-49 | From agreeing flags a first write opens a transaction on exactly what is committed. |
| Interleaving.AbortedIffRefused | tierdb-core-ffi/src/scan.rs:55-62 | The open write transaction is aborted if and only if some statement on the connection, a reader's included, was refused since its BEGIN. |
| Interleaving.WriterCommits | src/storage/tierdb_transaction.cpp:43-57 | One writer, any readers: committed data stays as at BEGIN until COMMIT, which publishes the fold of all chunks in order (of a chunk rejected in planning, the rows it got through), or nothing if a statement was refused. |
| Interleaving.RefusedReaderVoidsCommit | tierdb-core-ffi/src/scan.rs:55-62 | After any chunks of the writer, a reader whose pin insert is refused: the writer's COMMIT reports success and publishes nothing. |
| Interleaving.WriterRollsBack | src/storage/tierdb_transaction.cpp:59-65 | After ROLLBACK the committed state is that of BEGIN, also when a chunk failed part-way. |
| Interleaving.FlagsAgreeAlways | src/storage/tierdb_transaction.cpp:43-65 | In every state reached with one writer at a time and successful COMMIT and ROLLBACK, the transaction flag, the connection flag and the server agree. |
| Interleaving.ReachableFlagsAgree | tierdb-core-ffi/src/catalog.rs:24-64 | The same from a fresh connection. |
| CommittedView.ChunkOnView | tierdb-core-ffi/src/write.rs:112-396 | Any accepted chunk keeps the store well placed exactly when it crosses nothing on the view, and then its effect on the view depends on the view alone. |
| CommittedView.TransactionIsOneTable | src/storage/tierdb_transaction.cpp:43-57 | From any reachable state between write transactions: a transaction of accepted chunks on a tiered table, among any readers, committed without a refusal, leaves the merged read duplicate-free and equal to the old view with its relational operations applied in order; until then the old one is read. |
| Frozen.ReadsAreFrozen | src/storage/tierdb_transaction.cpp:16-28 | Under all interleavings and cut-line moves every scan of a table until the transaction ends is its first scan, the pin list is exactly the pins of the cached scans, and a pin row that is there holds the pair its scan reads. |
| Frozen.ReachableIsFrozen | tierdb-core-ffi/src/scan.rs:79-103 | Every state reached from a fresh connection meets that result's premise. |
| Ledger.PinRowIffNotLost | tierdb-core-ffi/src/scan.rs:55-103 | Over all runs an active transaction's cached scan has its pin row, with exactly the pair read, if and only if the pin was not taken inside a write transaction since aborted or rolled back. |
| Ledger.BalancedRun | tierdb-core-ffi/src/scan.rs:79-130 | After any run the committed and pending pin tables hold exactly the initial rows, the held pins not lost, and the leaked ones. |
| Ledger.PinsAccountedFor | src/storage/tierdb_transaction.cpp:30-41 | Once everybody is done the pin table is what it was plus exactly the leaked rows. |
| Ledger.PinTableUnchangedIff | src/storage/tierdb_transaction.cpp:30-65 | It is unchanged if and only if no step published a failed scan's row, undid a release, gave up an existing row, or failed a scan under a stale flag. |
| Ledger.OneWriterPins | tierdb-core-ffi/src/scan.rs:55-103 | One write transaction with any readers, in which nobody who held a pin at BEGIN releases yet: afterwards the pin table has lost the pins held at BEGIN and gained exactly the failed scans' rows if it was published; nothing is left behind if and only if it was rolled back, was aborted, or no scan failed after its insert. |
| Ledger.RollbackLosesReadersPin | tierdb-core-ffi/src/scan.rs:60-62 | A reader's pin row vanishes with another transaction's rollback while the reader keeps its scan. |
| Ledger.ReadersErrorLeaksPin | tierdb-core-ffi/src/scan.rs:60-62 | A reader's failed scan, rolled back by the reader, leaves a committed row when the writer commits. |
| Ledger.UndoneReleaseLeaksPin | tierdb-core-ffi/src/scan.rs:125-130 | A release inside a write transaction that is rolled back leaves the row with no holder. |
| Serial.ReleaseAllExact | src/storage/tierdb_transaction.cpp:38-40 | Exactly the pins before the first refused release are gone. |
| Serial.PinsConserved | src/storage/tierdb_transaction.cpp:30-41 | After any serialized run the pin table is what it was, plus exactly the failed scans' rows that a COMMIT published, plus at most the pins from a refused release on; with all releases granted it is unchanged if and only if nothing was published. |
| Serial.CommittedErrorLeaksPin | tierdb-core-ffi/src/scan.rs:60-62 | A scan failing after its pin insert leaves that pin if its write transaction is committed, and none if it is rolled back. |
| Serial.FailedCommitLeaves | src/storage/tierdb_transaction_manager.cpp:17-31 | After a COMMIT that reports failure the transaction's flag is clear, no rollback is issued, the server holds nothing and the connection flag stays set. |
| Serial.CommitReports | src/storage/tierdb_transaction_manager.cpp:17-42 | A COMMIT reports an uncommitted write exactly when the transaction had written and was refused, otherwise an unreleased pin exactly when a release was refused or another's aborted transaction stood in the way, otherwise success. |
| Serial.EndAnswers | tierdb-core-ffi/src/catalog.rs:44-64 | Ending a connection's transaction fails only when there is one and the server refuses; only a granted ending clears the flag. |
| Serial.RollbackRestoresIff | tierdb-core-ffi/src/catalog.rs:33-64 | For any rolled-back script, however its ending is answered, the tables are restored if and only if the connection's flag was clear at its start or its chunks change nothing; with the flag set they are the fold of the chunks. |
| Serial.FailedCommitBreaksNextRollback | src/storage/tierdb_transaction_manager.cpp:25-30 | After a COMMIT that reports failure, the next transaction, rolled back, has committed all its chunks. |
| LakeExec.LakeDb.ExecuteLakeDml | src/storage/tierdb_client.cpp:280-305 | Success means every statement landed once in order, an error means exactly those before the first that cannot land did; rows, landed statements and the number of executions are given exactly. |
| Retry.RetryRule | src/storage/tierdb_client.cpp:280-305 | A statement is sent again only after an answer that mentions 409, Conflict or CommitFailed, and at most twice; it takes effect on the first success; the next one is sent only after that, and the list succeeds when all of it landed. |
| LakeExec.LandedCountIsPrefix | src/storage/tierdb_client.cpp:288-304 | The number that landed is the length of the longest prefix of statements that can land. |
| LakeExec.SentCountBounds | src/storage/tierdb_client.cpp:288-304 | At most three executions a statement, and at least one for each that lands. |
| Payload.KeysToJsonArray | src/storage/tierdb_delete.cpp:34-54 | One object per row, each key name bound to its cell. |
| Payload.PickedObject | src/storage/tierdb_update.cpp:42-65 | An object built from a row has exactly the given fields, each holding the cell its index names, the last of a repeated name counting. |
| Payload.BuildUpdatePayload | src/storage/tierdb_update.cpp:42-65 | Each pair binds the trailing cells to the old key names and the indexed cells to the new column names. |
| Payload.ProjectedKeyAgrees | src/storage/tierdb_table.cpp:145-163 | A routing key projected from a row addresses the key and tier the row was written under, also when the tier key is a key column. |
| Sink.UpdateSink | src/storage/tierdb_update.cpp:36-83 | An empty chunk does nothing; otherwise begin, chunk, lake statements, each only after the previous, counting only on success; rejected at any point, the lake has seen no statement. |
| Sink.DeleteSink | src/storage/tierdb_delete.cpp:56-72 | The same for deletes. |
| Sink.LakeMovesLast | src/storage/tierdb_update.cpp:74-77 | A lake statement is sent if and only if the whole chunk went through, has lake statements and the catalog attached; those that took effect are the longest prefix that can land, the call succeeds exactly when that is all, and otherwise the lake sees nothing. |
| Sink.RejectedChunkLeaves | src/storage/tierdb_update.cpp:66-77 | A rejected chunk leaves in the write transaction what it had executed, or an aborted transaction if a statement was refused; the lake sees nothing. |
| Sink.RejectedUpdateSparesLake | tierdb-core-ffi/src/write.rs:270-289 | An update whose write fails after its removals had built their lake statement sends none. |
| Sink.RollbackKeepsLakePrefix | src/storage/tierdb_client.cpp:280-305 | A transaction that has not written yet takes any number of scans and chunks and is rolled back: heap and delta are those of its start, and the lake has gained the landed prefix of every chunk, in order. |
| Projection.QuoteIdent | src/storage/tierdb_table.cpp:52-62 | The loop yields the delimited identifier that `ProjectionRoundTrip` reads back. |
| Projection.ProjectedScanSql | src/storage/tierdb_table.cpp:67-89 | The loop yields `ScanSql`, whose reading is `ProjectionRoundTrip`. |
| Projection.ProjectionRoundTrip | src/storage/tierdb_table.cpp:67-89 | Reading the SQL back gives one item for each requested id in order, the column of that number, or else the column a virtual id maps to, or else a constant; a lone constant for none; and the wrapped read. |
| Projection.RoutingColumns | src/storage/tierdb_table.cpp:145-163 | Key columns in order, then the tier key, under consecutive virtual ids. |
| Projection.GetRowIdColumns | src/storage/tierdb_table.cpp:175-181 | The virtual ids of the routing columns in order. |
| Projection.VirtualNames | src/storage/tierdb_table.cpp:129-131 | Each virtual id maps to its routing column. |
| Projection.RowIdsReadRoutingKey | src/storage/tierdb_table.cpp:67-89 | Asking for the row-id columns reads back the real routing columns, never a heap column of the same number. |
| TypeName.ReadsPrinted | src/storage/tierdb_client.cpp:307-362 | A printed type name in any capitalisation reads back as its type with DECIMAL numbers reduced to 8 bits, and fails exactly when one does not fit 32; peeling `[]` terminates. |
| TypeName.StoiReads | src/storage/tierdb_client.cpp:317-318 | Reading a number skips blanks, takes a sign and all digits, ignores whatever follows, and fails outside 32 bits. |
| TypeName.PlainNames | src/storage/tierdb_client.cpp:321-361 | A name that is neither a list nor a DECIMAL is a type's if and only if it is that type's own in any capitalisation; every other one is VARCHAR. |
| TypeName.OneNumberTwice | src/storage/tierdb_client.cpp:313-319 | A DECIMAL with one number reads it both as width and as scale. |
| TypeName.TypeNameRoundTrip | src/storage/tierdb_client.cpp:307-362 | The round trip is exact if and only if all DECIMAL numbers fit 8 bits. Names come from `duckdb_type` of `tierdb-core`, which is not part of this model, so whether a larger number ever arrives is unknown. |

## Left out

- The internals of `tierdb-core`: real SQL text, mode parsing, key and tier encodings, `keep_heap`, retention lags.
- The lake worker: it appears as a move of the cut-line, as rows moved from the heap to the lake while T rises, and as delta entries worked into the lake; its SQL and its schedule are not modelled.
- Reads of a mirrored table through the merge: no file of the repository shows them, so mirrored results speak about the heap.
- What a scan returns inside an open transaction: reads use a separate connection.
- Two concurrent writers on the shared connection: the code does not isolate them, so one writer is a stated condition.
- Undoing lake statements: they are not part of the Postgres transaction, so ordering and prefix results take the place of atomicity.
- Several lake rows with equal key cells, NULL included: the lake is a map by key, so the model keeps one of them. Array and object cells keep their value, so different ones stay different.
- A connection lost during COMMIT after the server has already committed: the outcome is then unknown to the client.
- Pin expiry by time, advisory-lock contention, schema lookups other than their failure, and connection options.
- FFI strings and pointers, JSON serialisation, DuckDB planning and catalog overrides, insert sink payloads, affected-row reporting.
- Non-ASCII capitalisation and blanks in type names.
