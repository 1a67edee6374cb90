# Telemetry store: a verified model

The repository keeps one authoritative append-only log per stream and derives everything else from it: an
exact-id cache, a ledger, ingest checkpoints, a dashboard, compressed run archives. Every derived view must
agree with its log, whatever crashes, retries or concurrent writers do in between. This project models
those parts in Dafny and proves what they promise.

`dafny verify dfyconfig.toml` checks the whole project.

## How it is organised

| file | what it models |
|---|---|
| `Json.dfy` | the grammar of RFC 8259, `json.dumps` and `json.loads`; an object's text has no strict prefix that is an object |
| `Jsonl.dfy` | a stream byte by byte: complete lines, torn tails, what any cut of an append shows |
| `Replay.dfy` | the event ledger, replayed from byte 0 or from a checkpoint |
| `StateRoot.dfy` | the files under a state root with their durable part, signatures, cache, receipt; the invariant `Sound` |
| `RecordIndex.dfy` | the exact-id cache: trusted, extended by a suffix, or rebuilt |
| `RecordBatch.dfy` | `write_batch` and `settle_streams`, with a kill or an I/O error possible at every step |
| `WriterRuns.dfy` | whole runs of the writer with crashes, other writers, and cache files lost or come back |
| `Publish.dfy` | the dashboard protocol: any number of writers, probes, renderers and explicit renders, one step at a time |
| `RunDirectory.dfy` | a run directory whose entries become durable only when the directory is synced |
| `Archive.dfy` | archiving and restoring a run, with producers that may still be writing |
| `Usage.dfy` | what a metric row says, and the commutative sum of rows |
| `IngestLedger.dfy` | the incremental ledger over `metrics.jsonl` |
| `Billing.dfy` | per-call and per-session ingest of growing and rewritten logs, over metrics that are rolled back or replaced |
| `IngestRuns.dfy` | the three together: billing's rows in the writer's bytes, over whole runs, and the checkpoints that vouch for them |
| `ReconcilePrefix.dfy` | the shortest prefix of a log that accounts for totals-only history |
| `PromotionBindings.dfy` | durable bindings of fallback sessions to explicit ones: who may be whom, and why an ingest is refused |
| `NestedCosts.dfy` | nested cost reconciliation and the backfill planner |
| `BenchJournal.dfy` | the crash-resumable benchmark journal |
| `ContextRegistry.dfy` | transitive invalidation over a cyclic dependency graph |
| `Verdict.dfy` | the latest attested verdict of a task |

Classes stand for the source's objects and files; `if *` in a method is a kill or an I/O error, and an
unconstrained `:|` or `:= *` is a choice the source does not make (how much one write writes, the order of
a dict). A parameter such as `mayFail` or `breakable` says where a fault is allowed at all, so that a contract can
say what happens without one. A method's contract says what holds if it gets to its end and what holds if it does
not, so the class invariants are invariants of every reachable state.

## What is assumed of the system below

- A file carries a signature that changes with every write and never comes back; other writers append under
  the lock or replace the file. `fsync` makes all of a file's bytes durable, also when an earlier one failed.
- What another writer appends leaves lines of which a cut shows no row that was not shown; one that glues a line
  onto a complete row without newline is not among them.
- A database transaction is atomic, and a committed database moves to a new signature. After a crash a cache file
  is gone, or as it ever was, or under a signature that no receipt names.
- Hashes do not collide, so a fingerprint is the text it is taken of; decompressing a gzip gives back what
  was compressed. A fingerprint of the last line of a prefix identifies that line only, as in the source:
  where the source relies on appends leaving the prefix alone, so does the model.
- An id that is hashed from a session and a source-native id is never equal to one hashed from an aggregate.
- Text is a sequence of UTF-16 code units, so that a lone surrogate is an id like any other.

## What turned out to need a condition

- **A resumed ledger replay is the full replay if and only if no later event repeats an id** (`ResumeIsFull`):
  the resumed path does not deduplicate. Over runs of the coordinated writer no id repeats, so there the two
  always agree, as they do while other writers append events with ids of their own (`RefreshedLedgerIsFull`).
  `SomeEventRepeats` is a stream on which they differ.
- **A log is paid for, and its checkpoint tells the truth, if and only if no aggregate row owed for it has a record
  id that a recorded row already has** (`Biller.Ingest`). Such an id is made of the session, the model, the calls
  recorded for the group so far and the calls of the row; when `metrics.jsonl` is replaced by a file that lacks
  some rows, as `scripts/audit_and_clean_metrics.py` does, the count goes back and the id of a row that is still
  there can come up again. The writer skips the new row as a duplicate, and the checkpoint is saved all the same
  (`RewriteLosesACall`). It cannot happen at per-call granularity, nor while metrics are only appended to and
  truncated (`CollidesOnlyAfterRewrite`). A checkpoint that is wrong already stays wrong when it is resumed from.
- **`IngestLedger.seed` on a ledger that already tracks other sessions leaves out a pending unterminated row**
  of the session it adopts, until the next `advance` (`Seed`, with a concrete run in `SeedFallsShort`). The
  adopted session stands as a full scan would leave it if and only if the pending row is another session's, or
  adds nothing to what the checkpoint and the complete lines since give it. The ingest path always advances
  before it decides anything.
- **`IngestLedger.stage` of a session that is not tracked makes the ledger track it with the staged rows alone**
  (`Stage`, with a concrete run in `StageFallsShort`). Every session is right afterwards if and only if the rows met
  before add nothing to such a session. Ingest stages only rows of sessions it has asked for.
- **`_reconcile_prefix` matches increases, and a total that shrank counts as unchanged** (`CoversIsExact`): the
  prefix it finds makes up the difference of a group if and only if none of the group's totals shrank
  (`ShrunkTotalMatches` shows one that did). Ingest only asks while the checkpoint's metrics prefix is intact,
  and then no total has shrunk (`HistoryNeverShrinks`).
- **A journal whose last row lacks its newline is spoiled by the next append** (`Runner.Run`, with a journal in
  `SpoiledJournal`): such a row is read as any other, the next row is glued to it, and every later run raises. A
  run that finishes on such a journal spoils it if and only if some planned attempt was not complete in the rows
  it started from; one that finishes on a journal ending in a newline leaves one that does.
- **`source_promotions` reads back what ingest wrote if and only if ingest bound no blank session**
  (`BindingsAreRight`): a session id of nothing but whitespace is written into a binding as any other and refused
  when it is read, so that the source is locked out from then on (`BlankSessionLocksOut`).
- **An undated verdict decides a task if and only if no row of the task is dated after the earliest instant**
  (`UndatedDecidesIff`); a row dated at exactly that instant ties with it (`UndatedTies`).
- **A page stays stale only if a process died after the last write began** (`NoLostWakeup`,
  `DeathLeavesItStale`).

## Model

| member | source | states |
|---|---|---|
| Json.ObjectRoundTrip | orchestrator/core/jsonl.py:15-16 | an object that is encoded and decoded is the same object, for every object |
| Json.PrintIsPrintable | orchestrator/core/jsonl.py:15-16 | encoded text holds printable ASCII only, so no record contains a line break |
| Json.NoStrictPrefix | orchestrator/record_index.py:157-166 | no strict prefix of an object's text is itself an object, so a torn append is never read as a record |
| Jsonl.JsonCodecOk | orchestrator/core/jsonl.py:15-16 | the JSON codec has the three properties that everything about streams rests on |
| Jsonl.RowsOfTail | orchestrator/record_index.py:150-168 | a stream shows its complete lines' rows, and its tail's exactly when the tail is a complete object |
| Jsonl.RowsTerminate | orchestrator/record_batch.py:185-190 | ending a tail with a newline changes nothing a reader sees |
| Jsonl.AppendCut | orchestrator/record_batch.py:175-199 | however many bytes of an append reached the file, a reader sees the old rows and a prefix of the new ones |
| Jsonl.AppendEnds | orchestrator/record_batch.py:185-197 | a finished append leaves a closed stream, or an untouched malformed fragment when it had nothing to write |
| Jsonl.AppendKeepsCutSafe | orchestrator/record_batch.py:175-199 | after any part of an append, losing any undurable suffix shows a prefix of the rows that were visible |
| Jsonl.RecordIdIsTheLast | orchestrator/record_index.py:157-163 | a row's id is the string of its last `record_id` member, and it has none if that is anything else |
| Jsonl.HeldIffShown | orchestrator/record_index.py:157-163 | an id counts as held exactly when some row's last `record_id` is that very string, so rows with different ids are told apart |
| Replay.ReplayInto | orchestrator/state.py:83-94 | the loop folds exactly the valid events of the complete lines after the offset, first occurrences only when it deduplicates, and ends at the complete-prefix end |
| Replay.ReplayLedger | orchestrator/state.py:100-116 | resumes exactly from a checkpoint whose line is still there, else replays from byte 0; the published checkpoint always ends a line |
| Replay.FingerprintCloses | orchestrator/core/jsonl.py:64-76 | a prefix has a line's fingerprint exactly when it ends with a newline or is empty |
| Replay.ResumedIffSameLine | orchestrator/state.py:70-81 | on a stream of which as much was read, a checkpoint is resumed exactly when the line that ends there is, within the fingerprint's window, the line it ended with; otherwise everything is replayed |
| Replay.LineIsFolded | orchestrator/state.py:83-94 | one more line steps the full replay's state and count once if it is an object whose five identifier members are each absent, null or a string and whose id no such row had before; any other line leaves both alone |
| Replay.LineIsResumed | orchestrator/state.py:83-94 | a resumed replay steps on such an object whatever its id |
| Replay.FullFoldsCleanRows | orchestrator/state.py:24-29 | if no id repeats, the full replay is the fold of exactly the rows whose identifier members are in order, and counts them |
| Replay.ResumeIsFull | orchestrator/state.py:70-116 | resuming a prefix's ledger gives the full replay if and only if no later event repeats an id |
| Replay.SomeEventRepeats | orchestrator/state.py:70-116 | an event appended twice is folded twice by a resumed replay and once by the full one |
| Replay.CatchUpIsFull | orchestrator/state.py:100-116 | under any chunking of the appends the ledger ends as the replay from byte 0, if the stream repeats no id |
| StateRoot.AppendKeepsSound | orchestrator/record_batch.py:175-199 | an append cut anywhere leaves every entry of a trusted cache telling the truth |
| StateRoot.FsyncKeepsSound | orchestrator/record_batch.py:191-196 | so does making bytes or names durable |
| StateRoot.EvolvedKeepsCache | orchestrator/record_index.py:126-148 | any cache that told the truth goes on telling it while files grow under new signatures and become durable, one that was discarded included |
| RecordIndex.RecordIndex.Connect | orchestrator/record_index.py:91-118 | whatever the receipt, database and journal are, the connected cache is empty or tells the truth about every stream it has an entry for |
| RecordIndex.RecordIndex.OpenStream | orchestrator/record_index.py:126-148 | trusted, extended or rebuilt, the entry describes the stream as it is and the ids are exactly its rows' ids |
| RecordIndex.RecordIndex.Open | orchestrator/record_index.py:91-148 | an index opens on any sound state root with every stream described, or fails and changes cache files only |
| RecordIndex.RecordIndex.Scan | orchestrator/record_index.py:150-168 | scanning from a line boundary adds exactly the ids after it, complete-object tail included, and finds the prefix end and tail class |
| RecordIndex.RecordIndex.Contains | orchestrator/record_index.py:173-175 | membership in the cache is membership in the stream |
| RecordIndex.RecordIndex.Commit | orchestrator/record_index.py:180-191 | what is committed names durable complete prefixes with no pending row, and stays untrusted until its receipt is published |
| RecordIndex.TrustedEntry | orchestrator/record_index.py:131-132 | an entry whose signature still matches describes the whole stream |
| RecordIndex.DurableDescription | orchestrator/record_index.py:180-188 | a committed entry also describes the image its signature names after a crash |
| RecordBatch.AppendStream | orchestrator/record_batch.py:175-199 | appends a prefix of the rows, all of them and durably if it returns, and returns the new complete-prefix end |
| RecordBatch.FreshMembers | orchestrator/record_batch.py:298-310 | the rows to append are exactly the batch's rows whose id the stream does not hold |
| RecordBatch.UnseenIdIsAppended | orchestrator/record_batch.py:298-310 | a row of the batch is appended exactly when no row of the stream carries its last `record_id` |
| RecordBatch.Classify | orchestrator/record_batch.py:298-310 | one pass splits the batch into rows to append and duplicates, with each item's status |
| RecordBatch.SyncStream | orchestrator/record_batch.py:213-224 | one stream ends settled with all its rows, or shows a prefix of them; a skipped stream needed nothing |
| RecordBatch.SyncPending | orchestrator/record_batch.py:202-225 | every stream ends so, and a failure reports as persisted only rows that are all durable |
| RecordBatch.WriteCheckpoint | orchestrator/record_batch.py:169-172 | commit before receipt: the cache is trusted only after both, and truthful whenever it is trusted |
| RecordBatch.RefreshLedger | orchestrator/record_batch.py:323-327 | the ledger ends as the replay of the whole event stream, at the prefix end the index computed |
| RecordBatch.WriteBatch | orchestrator/record_batch.py:259-334 | wherever it stops, each stream shows its old rows and a prefix of its new ones; if it returns, every record of the batch is durable, statuses are right and the caches are caught up |
| RecordBatch.SettleStreams | orchestrator/record_batch.py:228-256 | no row appears or disappears, and if it gets to the end every shown row is durable |
| WriterRuns.StepKeepsSound | orchestrator/record_index.py:76-118 | calls, crashes, foreign appends and replaced streams keep the state root sound, whatever cache files are lost, overwritten or brought back, journals included |
| WriterRuns.RunKeepsSound | orchestrator/record_index.py:1-30 | so in every world of every run the next index answers as the streams do |
| WriterRuns.NeverTwice | orchestrator/record_batch.py:259-322 | over any run of killed, crashed and retried calls the writer never shows a second row for a (stream, id) |
| WriterRuns.SafeOnlyGrows | orchestrator/record_batch.py:175-199 | what the disk is sure to hold of a stream is only ever extended, crashes included |
| WriterRuns.NeverLost | orchestrator/record_batch.py:195-225 | once a call returns, each of its records is in a durable complete line at every later moment |
| WriterRuns.ExactlyOnce | orchestrator/record_batch.py:259-322 | an acknowledged record is shown exactly once at every later moment of the run |
| WriterRuns.SettledSurvivesCrash | orchestrator/record_batch.py:228-256 | a settled stream shows the same rows after any crash |
| WriterRuns.RefreshedLedgerIsFull | orchestrator/record_batch.py:323-327 | over any run in which no event id is shown twice, whoever appends, every published ledger is that of a durable prefix, and after a refreshing call reports ok it is the full replay of the stream |
| WriterRuns.PersistedEventIsFolded | orchestrator/record_batch.py:140-143 | the writer refuses what a replay would skip: under those conditions the ledger that a refreshing call publishes is the fold of as many rows as it counts, and each event the call persisted is exactly one of them |
| WriterRuns.EventsStayDistinct | orchestrator/record_batch.py:259-322 | the writer never shows an event id twice, so it is enough that nobody else adds one that is there |
| Publish.StepKeepsInv | orchestrator/presentation/publish.py:45-116 | every step of every process, births and deaths included, keeps: if the page is stale and nobody died since the last write began, somebody is bound to notice |
| Publish.CheckKeepsInv | orchestrator/presentation/publish.py:28-42 | a check that reads the receipt and then four files one at a time never misses a change that nobody else is responsible for |
| Publish.YieldKeepsInv | orchestrator/presentation/publish.py:93-111 | a writer or renderer that gives up on a held lock leaves a holder who looks again or starts someone who does |
| Publish.UndisturbedCheck | orchestrator/presentation/publish.py:28-42 | a check during which nothing else moves finds the page current if and only if its receipt names the files as they are, whoever asks, and sends its caller on accordingly |
| Publish.UndisturbedRender | orchestrator/presentation/publish.py:45-78 | a render that gets the lock and is not disturbed leaves page and receipt exactly the files, without rendering if it may skip and they are already |
| Publish.GenPublishesReceipt | orchestrator/presentation/publish.py:65-73 | publishing a receipt never replaces a newer one |
| Publish.NoLostWakeup | orchestrator/presentation/publish.py:101-116 | once no writer is refreshing and no renderer lives, and none died since the last write began, receipt and page are exactly the files |
| Publish.ReceiptNeverAhead | orchestrator/presentation/publish.py:64-73 | in every reachable state the receipt promises no more than the page shows, and the page no more than the files |
| Publish.PublicationMovesForward | orchestrator/presentation/publish.py:63-73 | an older snapshot never replaces a newer page or receipt |
| Publish.DeathLeavesItStale | orchestrator/app/refresh.py:34-62 | without the condition on deaths the page can stay stale |
| RunDirectory.CrashKeepsOk | orchestrator/archive/manifest.py:108-151 | a crash that drops any unsynced entry or file keeps the invariant and every committed manifest entry and recovery copy |
| RunDirectory.PublishManifestKeepsOk | orchestrator/archive/manifest.py:136-149 | replacing the manifest keeps all committed entries, and the superseded generation has its durable copy |
| RunDirectory.LinkArchiveKeepsOk | orchestrator/archive/execute.py:77-79 | linking a new archive without clobbering disturbs nothing a manifest promises |
| RunDirectory.RawKeepsOk | orchestrator/archive/execute.py:111-113 | an original may go away once a manifest that any crash would leave has its bytes |
| RunDirectory.CrashKeepsGenerations | orchestrator/archive/manifest.py:123-149 | a crash loses at most the manifest that was put in place last, and none that was synced; every earlier one has its copy |
| RunDirectory.NothingLost | orchestrator/archive/execute.py:88-117 | now and after any crash, each sealed original's bytes are in its raw file, or in an archive that decompresses to them and that the manifest names with their digest |
| Archive.RunArchiver.SaveBackup | orchestrator/archive/manifest.py:123-135 | the current manifest gets a durable content-addressed copy, or nothing changes that matters |
| Archive.RunArchiver.WriteManifest | orchestrator/archive/manifest.py:108-151 | entries are only added; a superseded manifest is saved first; if it returns, every entry survives any crash |
| Archive.RunArchiver.MakeArchive | orchestrator/archive/execute.py:60-84 | a new archive decompresses to bytes that are the raw file's, if that is still as it was first seen; nothing is replaced; without faults and producers it is made |
| Archive.RunArchiver.AdoptArchive | orchestrator/archive/execute.py:41-56 | an archive that is already there is adopted only if it decompresses to the raw file's bytes and to its known entry |
| Archive.RunArchiver.RemoveOriginal | orchestrator/archive/execute.py:103-117 | a raw file is removed only under a seal naming exactly its bytes, committed and untouched since it was read; a file without a seal stays |
| Archive.RunArchiver.Commit | orchestrator/archive/execute.py:88-117 | commit first, then remove; an archived file's entry is committed, and only this file may go away |
| Archive.RunArchiver.ArchiveFile | orchestrator/archive/execute.py:36-85 | the whole protocol for one file keeps everything earlier work committed, wherever it stops; the archive of a committed entry is never found missing; without producers a file is reported missing exactly when it is, and without faults too it ends archived, unless it differs from its entry, its archive's name is taken by something else, or its seal names other bytes, and each of these is told apart |
| Archive.RunArchiver.ExecuteRun | orchestrator/archive/execute.py:127-134 | over all files of a run, each reported archived has a committed entry, each reported removed was sealed, and every manifest that was ever in place is the current one or has its durable copy |
| Archive.RunArchiver.RestoreFile | orchestrator/archive/restore.py:19-48 | unless the process is killed, I/O fails or a producer puts a file there between lookup and link, the file is there with exactly the archived bytes, or a different raw file has its name and is reported; no file is replaced, at whatever moment it appeared; the archive is never found missing or different |
| Archive.RunArchiver.RestoreRun | orchestrator/archive/restore.py:51-82 | without faults and without producers, every entry ends with its archived bytes or is reported as an existing different file; with faults only the entries they struck are not; no file that was there changes |
| Archive.RestoredOriginal | orchestrator/archive/restore.py:33-48 | from any crash point, a missing sealed original has a manifest entry and an archive of exactly its bytes |
| Usage.SumCommutes | orchestrator/ingest/ledger.py:107-126 | two batches of rows add up to the same session state in either order |
| Usage.AbsorbedIffUnchanged | orchestrator/ingest/ledger.py:107-126 | a row leaves a state unchanged exactly when it adds nothing that is not there |
| Usage.StateIsReadOffTheRows | orchestrator/ingest/ledger.py:107-126 | of any rows: each model's totals are the sums, part by part, over the session's rows of the model, the unidentified totals those over exactly the rows that name no source call, and every call id, covered call, model and granularity is recorded if and only if some row says it |
| IngestLedger.IngestLedger.Scan | orchestrator/ingest/ledger.py:128-146 | applies exactly the complete lines between two offsets to exactly the selected sessions |
| IngestLedger.IngestLedger.FullScan | orchestrator/ingest/ledger.py:164-175 | every session ends as the sum of the whole stream, its pending tail and the staged rows |
| IngestLedger.CompleteIsReadOffTheRows | orchestrator/ingest/ledger.py:164-175 | so in a complete ledger, after a full scan or a catch-up, every session's totals, unidentified totals and covered calls are read off the stream's rows in the same way |
| IngestLedger.IngestLedger.Advance | orchestrator/ingest/ledger.py:226-232 | so does every tracked session after catching up, by suffix or from byte 0 |
| IngestLedger.IngestLedger.Ensure | orchestrator/ingest/ledger.py:217-224 | every asked session is tracked, and stays right |
| IngestLedger.IngestLedger.Stage | orchestrator/ingest/ledger.py:234-239 | staged rows are added to their sessions and survive any re-derivation; all sessions are right afterwards if and only if the rows met before add nothing to a session that was not tracked |
| IngestLedger.IngestLedger.Seed | orchestrator/ingest/ledger.py:183-215 | true exactly when the checkpoint's metrics prefix is still there; its sessions are then tracked; one adopted beside others is complete if and only if the pending row is not its own or adds nothing |
| IngestLedger.SeedMissesTail | orchestrator/ingest/ledger.py:208-215 | what a checkpoint and the complete lines since add up to is what a full scan gives if and only if the pending row is not the session's or adds nothing |
| IngestLedger.SeedFallsShort | orchestrator/ingest/ledger.py:208-215 | a run of two seeds in which the second session's state is wrong until the next advance |
| IngestLedger.UnowedIffUnchanged | orchestrator/ingest/ledger.py:107-126 | rows leave a session as it is exactly when each is another session's or adds nothing |
| IngestLedger.StageFallsShort | orchestrator/ingest/ledger.py:234-239 | a run in which a session with a row in the stream is staged untracked and ends wrong |
| IngestLedger.IngestLedger.Export | orchestrator/ingest/ledger.py:317-328 | what is exported is what the named prefix adds up to; a provisional or staged ledger refuses |
| IngestLedger.VouchesLater | orchestrator/ingest/ledger.py:177-181 | a checkpoint goes on telling the truth while the stream grows, and vouches for nothing once the file is replaced |
| Billing.BooksAddUp | orchestrator/ingest/ledger.py:107-126 | a session's recorded totals are the sum of the calls paid for, and its covered ids are exactly theirs |
| Billing.NewCalls | orchestrator/ingest/service.py:364-370 | the calls to bill are exactly those not covered, each once |
| Billing.Observe | orchestrator/ingest/service.py:103-127 | each group's totals and distinct ids are those of its calls |
| Billing.SessionRows | orchestrator/ingest/service.py:142-150 | one aggregate row a group covers exactly the new calls of the group, under the record id made of the calls recorded and the calls of the row |
| Billing.CallRows | orchestrator/ingest/service.py:390-402 | one row a call, in log order, pays for exactly the new calls |
| Billing.NewIdIsFresh | orchestrator/ingest/service.py:142-150 | a row for unpaid calls has a record id no recorded row has, if it is a row for one call, or if nothing was ever taken out from between the recorded rows, since then a group's recorded calls strictly grow |
| Billing.TakenIffCollides | orchestrator/ingest/service.py:142-150 | some aggregate is skipped exactly when the record id owed for some group is one a recorded row has |
| Billing.AllPaid | orchestrator/ingest/service.py:418-427 | once the writer has handled all records, everything owed is paid for exactly when none was skipped |
| Billing.RecordIdsAreDistinct | orchestrator/ingest/service.py:371-402 | no two recorded rows share a record id, whatever was taken out and recorded again |
| Billing.NothingIsForgotten | orchestrator/ingest/service.py:355-363 | unless a log's checkpoint was lost, its ingest without an intact metrics prefix is rejected if and only if some call that a finished ingest once found there, however long ago, is neither recorded nor in the log |
| Billing.Biller.Append | orchestrator/ingest/service.py:418-427 | killed after any record, the rows hold the ones among the records handled whose ids no row had |
| Billing.Biller.Resume | orchestrator/ingest/service.py:286-318 | every call of the log is either read or in a checkpointed prefix, whose calls are all paid for if the checkpoint tells the truth |
| Billing.Biller.Ingest | orchestrator/ingest/service.py:259-442 | pays only for unpaid calls; rejected exactly when metrics were rolled back and a seen call is gone; if it finishes, the checkpoint has observed all that earlier ones had and all the log shows, and, unless it resumed from a checkpoint that was wrong, the log is paid for and the checkpoint tells the truth if and only if no record id collided |
| Billing.Biller.RollBack | orchestrator/ingest/service.py:355-363 | truncating metrics keeps the books |
| Billing.Biller.Rewrite | scripts/audit_and_clean_metrics.py:179-227 | so does replacing the stream by a file that holds any of its rows, in any order, under a new inode |
| Billing.CollidesOnlyAfterRewrite | orchestrator/ingest/service.py:142-150 | record ids never collide at per-call granularity, nor before such a replacement |
| Billing.RewriteLosesACall | orchestrator/ingest/service.py:142-150 | a run in which one does: the log ends unpaid and the checkpoint says otherwise |
| Billing.RecordedNeverExceedsTheLogs | orchestrator/ingest/service.py:364-433 | at every moment recorded totals are those of distinct calls the logs have shown |
| Billing.FinishedIngestIsExact | orchestrator/ingest/service.py:364-433 | when its log is paid for, a session only this log shows is recorded exactly, each distinct call once |
| Billing.CheckpointVouchesForPaidCalls | orchestrator/ingest/service.py:434-441 | telling the truth means that every call id a checkpoint ever observed, its whole prefix included, is covered in the metrics prefix it names; while that prefix is there all those calls are paid for |
| Billing.LedgerHoldsTheBooks | orchestrator/ingest/ledger.py:78-126 | the incremental ledger's state of a session is its state in the books |
| IngestRuns.CallAppendsRecords | orchestrator/ingest/service.py:418-427 | one call of the writer, however far it gets, adds to the stream's session rows a prefix of the records no row has the id of, all of them if it returns; the books stay right, and everything owed is then paid exactly when none was skipped |
| IngestRuns.OwedIsDecided | orchestrator/ingest/service.py:364-417 | what the ingest of a biller with the stream's rows owes is what such a call is given |
| IngestRuns.StepKeepsBooks | orchestrator/ingest/service.py:364-433 | so does every step of a run: crashes, settling, lost caches, other writers' rows, and a metric stream replaced by some of its rows |
| IngestRuns.RunKeepsBooks | orchestrator/ingest/service.py:364-433 | over any run of killed, crashed and retried calls and replaced streams the metric stream's bytes bill no call twice |
| IngestRuns.RecordedNeverExceedsOverRuns | orchestrator/ingest/ledger.py:107-126 | what those bytes add up to for a session and model never exceeds the distinct calls the logs have shown |
| IngestRuns.CaughtUpLedgerIsTheBooks | orchestrator/ingest/ledger.py:226-232 | a ledger that caught up with a settled stream holds for each session what its rows say |
| IngestRuns.IntactPrefixIsSeeded | orchestrator/ingest/service.py:277-288 | if a checkpoint's metrics prefix is intact, the rows it was saved with are a prefix of the rows there are, and what it records is what they add up to |
| ReconcilePrefix.Reconcile | orchestrator/ingest/service.py:199-229 | the shortest prefix whose usage in every group is the increase in unidentified totals; None exactly when there is none |
| ReconcilePrefix.CoversIsExact | orchestrator/ingest/checkpoint.py:80-100 | that prefix makes up a group's difference if and only if none of its totals shrank |
| ReconcilePrefix.ShrunkTotalMatches | orchestrator/ingest/checkpoint.py:80-100 | history that is gone matches the empty prefix |
| IngestRuns.HistoryNeverShrinks | orchestrator/ingest/service.py:191-195 | while the checkpoint's metrics prefix is intact no unidentified total shrinks, so what ingest matches makes up the difference |
| PromotionBindings.SourcePromotions | orchestrator/ingest/ledger.py:242-278 | reads the bindings of a (runtime, source), refusing exactly a malformed or conflicting row, a record id that is not its own fields' included |
| PromotionBindings.RowsAgree | orchestrator/ingest/ledger.py:254-270 | readable bindings are a function: all rows of a source that name a session bind it alike |
| PromotionBindings.BindingsOnlyGrow | orchestrator/ingest/ledger.py:251-252 | what was bound stays bound, to the same session |
| PromotionBindings.ReadableIff | orchestrator/ingest/ledger.py:260-270 | rows ingest writes are read back if and only if none names a blank session |
| PromotionBindings.Reconcile | orchestrator/ingest/reconcile.py:27-176 | refused exactly for one of five reasons: an unclear generation of a live session, totals-only history, a call that is ambiguous or matches a session of unknown origin or generation, a session with two targets, a session of which some calls are missing; otherwise each matched session goes to the one session whose calls match it, and matched calls keep their old identity |
| PromotionBindings.RefusedIff | orchestrator/ingest/reconcile.py:51-176 | those reasons read off the recorded rows, the history and the bindings: who may be taken over, under which inode, by which calls, and when ids, origins, inodes, totals or missing calls leave that in doubt |
| PromotionBindings.TakenOverIff | orchestrator/ingest/reconcile.py:69-162 | an ingest that is not refused joins a session to another if and only if some call of that one is known under it, its binding, the checkpoint or its recorded origin lets it be taken, and it is of the present inode; such a call keeps its old identity, every other call its own |
| PromotionBindings.GenerationIff | orchestrator/ingest/reconcile.py:93-118 | the generation rule: a binding of another inode settles it; else the checkpoint's inode if it showed the session; else the rows, which must all be of one inode |
| PromotionBindings.TakenOverMeans | orchestrator/ingest/reconcile.py:93-118 | a session that is taken over is bound to its taker under this inode or not at all; the checkpoint that showed it is of this inode, or, if none did, every row of it is, and there is one |
| PromotionBindings.UnsureIsRefused | orchestrator/ingest/reconcile.py:104-118 | a call known under a session whose inode nothing settles is refused, not guessed |
| PromotionBindings.ContinuedIsTakenOver | orchestrator/ingest/reconcile.py:100-162 | a log all of whose calls a checkpoint of the same inode showed under one cached fallback is not refused, takes it over, and every call keeps the identity it was shown with |
| PromotionBindings.HeaderAppears | orchestrator/ingest/service.py:319-441 | a log read under its file name and again once its header is there: in the same file the fallback is bound and not one call is recorded twice; in another file at the path nothing is taken over and every call is recorded as its own |
| PromotionBindings.AliasIsProven | orchestrator/ingest/reconcile.py:69-95 | a session that is taken over was recorded or read as a fallback, and the one that takes it over was read as explicit, whether eligibility came from bindings, cached aliases, checkpoint provenance or recorded rows |
| PromotionBindings.PromotionLog.Ingest | orchestrator/ingest/service.py:319-441 | refused exactly for those reasons or unreadable bindings; killed after any row, bindings only grow, each new one joins a matched session to its target, and each new metric row records a call that no row covered; if it finishes, every matched session is bound, every call is covered, and the checkpoint has the present inode, all that was ever observed and the aliases found |
| PromotionBindings.BindingsAreRight | orchestrator/ingest/service.py:404-408 | over any ingests, kills, rollbacks, lost checkpoints and rewritten metrics, each session of a (runtime, source) is bound to exactly one other, it was a fallback and the other explicit, and the bindings are readable if and only if none is blank |
| PromotionBindings.BlankSessionLocksOut | orchestrator/ingest/ledger.py:261-263 | a blank session id in a log is bound and then refused by every later read |
| NestedCosts.NestedReconciliation | orchestrator/economics.py:227-360 | the loops over dict groups compute, for any rows, the rule stated event by event |
| NestedCosts.GapIsBookedOrReported | orchestrator/economics.py:318-358 | of any finished event that can be told apart: a gap over both tolerances is booked, as one row of exactly the gap, if the event claims no rows or more than were kept, and reported once with its figures if they are all there; any other gap is neither |
| NestedCosts.OnlyGapsAreBooked | orchestrator/economics.py:302-358 | every booked row itemizes some finished event that can be told apart |
| NestedCosts.CannotBeToldApart | orchestrator/economics.py:305-316 | a dispatch that finished more than once without two different written attempts has nothing booked or compared, and one entry that names its events and the dollars at stake |
| NestedCosts.BookingSettles | orchestrator/economics.py:318-358 | once booked, a key's details and residual add up to exactly its aggregate; what was not booked is untouched |
| NestedCosts.ReconciliationIsIdempotent | orchestrator/economics.py:294-360 | feeding the booked rows back in books nothing and reports the same ambiguities |
| NestedCosts.InseparableBooksNothing | orchestrator/economics.py:205-224 | events that cannot be told apart have nothing booked for any attempt |
| NestedCosts.NoRowCountsTwice | orchestrator/economics.py:205-224 | no detail row counts against two aggregates |
| NestedCosts.PlanBackfill | scripts/backfill_nested_costs.py:977-1099 | the planner books rows for exactly the attempts that agree or cannot be checked, and reports exactly those that agree as reconciled |
| NestedCosts.PlanBooksIff | scripts/backfill_nested_costs.py:1023-1083 | of any named event that can be told apart: one row a log entry is planned if and only if nothing itemizes the dispatch yet, the log has entries, and there is no aggregate or one within either tolerance; it is reconciled exactly when there was one |
| NestedCosts.BackfillLeavesNothing | scripts/backfill_nested_costs.py:1053-1083 | rows the planner books leave no residual and no ambiguity for their key |
| NestedCosts.BackfillIsIdempotent | scripts/backfill_nested_costs.py:820-858 | once added, they make the next plan book nothing for those dispatches |
| BenchJournal.ReadRows | bench/runner.py:52-62 | one pass gives the last terminal row of each id, and the ids that started and never ended |
| BenchJournal.DecideFits | bench/runner.py:119-134 | from any rows a run can leave, exactly the completed attempts are skipped and nothing that was launched is launched again |
| BenchJournal.Runner.Append | bench/runner.py:65-69 | a row is added whole, or the kill leaves nothing, a row without its newline, or an unreadable line |
| BenchJournal.Runner.RunOne | bench/runner.py:155-212 | a launch happens only after its start is on record, a finished attempt has its terminal row, and one whose workspace could be set up was launched |
| BenchJournal.Runner.Run | bench/runner.py:96-135 | raises exactly on an unreadable journal; if it finishes, every planned attempt is complete and every launch its rows called for was made, unless its workspace could not be set up; no other launch is ever made; on a last row without newline it then has spoiled the journal if and only if some planned attempt was not complete before |
| BenchJournal.SpoiledJournal | bench/runner.py:65-69 | a journal with one started row and no newline: a run that finishes makes every later one raise |
| BenchJournal.CompleteCountsOnce | bench/stats.py:12-15 | a complete attempt has exactly one active row, its last |
| BenchJournal.FinishedRunCountsOnce | bench/stats.py:12-15 | after a finished run that left its journal readable the file has one active row an attempt, and over all runs no id was launched twice |
| ContextRegistry.ContextRegistry.InvalidateDependents | orchestrator/context.py:49-61 | ends on cyclic graphs, and invalidates exactly the valid artifacts reachable through valid ones |
| Verdict.SortSorts | orchestrator/run_evidence.py:198-210 | the timeline is a permutation of the rows in instant order, a failure last among equals |
| Verdict.VerifiedTasks | orchestrator/run_evidence.py:461-464 | a task is verified iff it has attested rows and all at its latest instant pass, which no reordering can change |
| Verdict.UndatedDecidesIff | orchestrator/history.py:64-80 | an undated row decides exactly when no row is dated after the earliest instant |
| Verdict.UndatedTies | orchestrator/history.py:64-80 | beside a pass dated at the earliest instant an undated failure still decides |

## Left out

- One parser reads a line for everyone: the ledger's reader strips a line first, so that an object followed by a vertical tab or form feed is a row for it and none for the cache.
- Python's JSON beyond the grammar: NaN and Infinity, a byte order mark, UTF-8 validation; blank lines with vertical tab or form feed are lines that do not parse here as there.
- `validate_batch` field rules other than ids and identifier members, `build_record` timestamps and attribution: a batch arrives validated and materialised.
- `reduce_event`: any function from a document and an event to a document; a line without `ts` would make the source's reducer read the clock.
- Replay.ReplayInto: a `record_id` that is a non-string truthy value takes part in the source's deduplication and not in the model's.
- RecordIndex.RecordIndex.Connect: the second attempt after corrupt database pages is not a separate step; it is the untrusted case again.
- RecordBatch.WriteBatch: the directory-ancestry fsync and the lock are outside the call; `records` and error texts of the result are not modelled.
- RecordBatch.AppendStream: a short write of zero bytes is a failure like any other.
- WriterRuns.NeverTwice: rows that other writers add with the same id are not the writer's, and the statement says so by condition.
- Publish.NoLostWakeup: says what holds when nobody is left, not that renderers finish; a result that already carries an error never refreshes, which is a death here.
- Archive.RunArchiver.ArchiveFile: free space, hard-link counts and unreadable seals are arbitrary refusals, where faults are allowed; a leftover private temporary file is harmless, so failed attempts do not remove it here.
- Archive.RunArchiver.RemoveOriginal: the last `stat` and the unlink are one step; a producer that ignores its own seal in between is not modelled.
- The archive planner's age and name rules, storage accounting and run status summaries: they decide what to attempt, not what is kept.
- IngestLedger.IngestLedger.Stage: asks that the ledger be initialized, as it is once ingest has asked for its sessions.
- Billing.Biller.Rewrite: the new file holds only rows of the old one, unchanged; a rewrite that alters a row's usage or call ids is not modelled.
- The ledger's per-source states and its cache of promotion rows: the first is the same fold by another key, the second the same prefix test as `advance`.
- Billing.Biller.Ingest: totals-only legacy history and session-id drift are handled by other parts of the source and are absent from these runs; a log is the sequence of calls its parser yields, and an id denotes one call with one usage.
- Billing.Biller.Resume: source prefix fingerprints are prefix equality, and any other reason to distrust a checkpoint is an arbitrary choice. That the metrics prefix is there is equality of rows; `IngestRuns.IntactPrefixIsSeeded` derives it from inode, offset and last line, while the file only grows or is replaced.
- Billing.Biller.Append: skips an id the recorded rows have; `IngestRuns.CallAppendsRecords` derives it from what the writer does to the bytes, given that session rows go by their call id and no other metric row has such an id.
- Billing.Observe: starts from no groups, as for aggregate rows; timestamps, provider, repository and the origin kept with a group are left out.
- PromotionBindings.Reconcile: the final comparison of usage totals per model only refuses more ingests than the model does; decimal digits outside ASCII count as positions in the source only.
- PromotionBindings.SourcePromotions: a pending event tail and staged bindings of a dry run are left out; rows are typed, so a malformed row is one with a blank or equal session or a foreign record id.
- PromotionBindings.PromotionLog.Ingest: calls and the reader's provenance are what the log's parser yields; metrics are recorded one row a call, with session aggregates only as rows of other writers; when to resume is a free choice, as `Billing` decides it.
- NestedCosts.PlanBackfill: retention caps that abort the plan, path checks and log replay are not modelled; floating-point costs are exact reals.
- BenchJournal.Runner.Run: asks that planned ids be distinct; ids are joined with dots, so dotted task and arm names can collide and the source does not look for that.
- Agent processes, budgets, grading, bootstrap statistics, prices and routing heuristics.
- `ContextRegistry.packet`, the other cost reductions and the CLI: easy consequences of their bodies.
