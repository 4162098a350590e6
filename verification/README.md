# Verification of the MobiPwn ingest, search, jobs and conversion logic

This project models the parts of MobiPwn in which state changes step by step or a text is printed
and read back, and proves what they keep over every run or every input. A component is one or a
few modules:

- **Ingest worker pool and job lifecycle** (`IngestProtocol`, `IngestOwnership`, `IngestCapacity`,
  `IngestQueue`, `IngestPool`, `IngestService`, `Upload`, `UploadRuns`). Any number of processes, each with its
  waiting workers, and any number of upload handlers interleave freely over one job table. The two
  loads and the compare-and-swap of a waiter, the read and the commit of a claim, the check and the
  write of an admission are separate steps. `IngestPool` and `IngestService` are the classes whose
  methods update the pool's counters and the upload's rows and files in place.
- **Batching of ClickHouse inserts** (`Batching`, `ClickHouseInsert`, `InsertLoops`): the greedy
  packer, the chunked loop, the draining loop and the streaming loop over a table whose inserts may
  fail at any attempt.
- **Search results** (`Pagination`, `SearchExecute`, `Timestamps`, `CursorToken`, `CsvExport`,
  `JsonValues`): keyset paging while the table changes, the timestamps and ids that a cursor carries as text, the
  opaque token, and the CSV export with the reader that undoes it.
- **Cron schedulers** (`CronExpressions`, `CronScheduler`): the reconciler shared by detection rules
  and enrichment providers, with registrations and removals that fail.
- **Case comparison** (`CaseCompare`, `EntityCounts`): the three-way diff and the maps it starts from.
- **Sigma conversion** (`SigmaConvert`, `SigmaRules`, `SigmaMeaning`, `SigmaColumns`, `SigmaConditions`,
  `SigmaDialects`) into
  query texts, and **their reading** (`MplValues`, `MplParser`, `MplSearch`, `MplReading`, `MplQueries`,
  `MplRoundTrip`, `MplMisreading`): a Sigma rule with its own meaning is written down as text, converted character by
  character, read by the mPL parser character by character, and matched against events.
- **Parser progress** (`ParserProgress`): the two-lock protocol of the parallel sysdiagnose parsers.

`Arithmetic`, `Counting`, `Orders`, `Sequences`, `Sets`, `Text` and `Wrappers` are helpers.
`dafny verify dfyconfig.toml` checks everything.

## What the proofs show about the code

Some promises hold only under a condition, and the condition is part of the result:

- *Exclusive ownership of a claimed job* holds in every state of a run exactly when no step writes a
  job's status blindly while a worker holds it (`OwnershipOverRuns`). Four kinds of step write
  blindly: the recovery pass, which runs after the workers are spawned (mobipwn-api/src/main.rs:166-167);
  `mark_pending` from a second `complete_upload` of the same job (mobipwn-core/src/store/ingest_jobs.rs:386-401);
  the upsert of `begin_upload` (mobipwn-core/src/store/ingest_jobs.rs:283-323); and the `finish` of a
  `complete_upload` that read a wrong digest (mobipwn-api/src/ingest.rs:517-528). For each of the four a
  run is given that ends with two workers holding one job.
- *The queue cap* is checked against `pending as u32`; two admissions that overlap pass it by one
  (`TwoRequestsPassTheCap`), and never by more than the number in flight, unless the backlog found at
  start-up was larger (`QueueCap`).
- *A lost reply* costs no byte: the client that sends an acknowledged chunk again gets a conflict and the file stays
  (`ResendIsRefused`). Only a body torn in the middle of its write moves later chunks away from their offsets, and then
  the digest decides (`AcceptedStaysPut`, `QueuedMeansVerified`).
- *An upload declared with an upper-case digest* is accepted by `init_upload` but never queued, since
  the computed digest is lower case (`UpperCaseHashIsNeverQueued`).
- *Keyset paging* prints a microsecond timestamp (clickhouse/init.sql:8) into a token that the query
  parses with a millisecond default; `TimestampIsCut` derives the cut from the printed date, clock and digits, and
  `PageServesMilliseconds` carries it to the response. Rows
  inside the gap between the cut timestamp and the last row of a page are skipped. However the table changes
  between pages, every row that stays is returned, for every page size, if and only if the cursor can tell
  apart the rows that may occur (`StableExactlyWhenSeparated`, and `SeparatedByMilliseconds` for what that
  asks of timestamps and ids); `MillisecondCursorLosesRow` is a session that loses a row of a table that does
  not change.
- *The CSV header is not quoted*: the export reads back for all rows exactly when there are columns and
  their names are free of comma, quote, CR and LF (`ExportReadsBackExactlyWhen`).
- *Sigma conversion* loses no match, whatever rules are written in a dialect (the characters of its field
  names and of its values, and its modifiers), if and only if the
  condition keeps every group, names hold only letters, digits, `_` and `.`, values hold no white space, bar,
  closing parenthesis, quote or backslash, and `contains` is the only modifier, alone or with `all`
  (`DialectLosesNothingExactlyWhen`). A condition that keeps no selection is refused with an
  error (`NothingKeptIsRefused`). Groups joined with `and` vanish beside others joined with `or`; a value
  such as `a b` after `contains` is cut at the blank; `startswith`, `endswith` and a bare `all` stay in the
  field name, which the parser refuses. Whether one single unclean value loses a match depends on the text
  around it, so the condition is on alphabets: for each character and each modifier outside it a rule and an
  event are given whose match is lost. Two things a search never takes literally are left out of dialects and
  have their own condition (`PatternKeptExactlyWhen`): a value of stars only, which asks for a non-empty
  field, and a value that is the name of a searchable field, which compares two columns.
- *A Sigma condition with a connective* is put in lower case before its names are looked up, so a selection whose name
  has a capital is found only by a condition that is this one name (`NamesAreLower`, `SingleKeepsCase`).
- *A field named NOT* cannot be tested against a list: the parser takes the name for the negation, so the round trip
  of queries (`QueryRoundTrip`) leaves that name out of lists.
- *Cron jobs whose removal fails* stay in the job runner, since the error is dropped; `RunIsConsistent`
  accounts for each of them.

## Model
| member | source | states |
|---|---|---|
| IngestOwnership.OwnershipStep | mobipwn-api/src/ingest_pool.rs:104-155 | one step of any worker or handler keeps every held job running and held once, if and only if its blind status write, if it makes one, misses all held jobs |
| IngestOwnership.OwnershipOverRuns | mobipwn-api/src/ingest_pool.rs:104-155 | over every interleaving of any number of processes, ownership holds in all states if and only if no step writes blindly over a held job |
| IngestOwnership.ExclusiveOwnership | mobipwn-api/src/ingest.rs:735-895 | without a recovery pass and with at most one request in flight per job, every claimed job is held by exactly one worker in every state |
| IngestOwnership.ClaimedJobFinishesOnce | mobipwn-api/src/ingest_pool.rs:119-151 | between the claim and the release of the slot exactly one step ends the claim; it is a finish, done or failed, unless a repository call failed, and afterwards nobody holds the job |
| IngestOwnership.ProcessingStarts | mobipwn-api/src/ingest.rs:735-769 | a worker starts to process its job exactly when it finds the job running, or finds it pending and claims it again; either way the job is running then |
| IngestOwnership.ReservedWasVerified | mobipwn-api/src/ingest.rs:515-551 | in every run a complete_upload that stands before its status write has found the digest of its job right, and has only counted and checked the queue since |
| IngestOwnership.RecoveredWasRunning | mobipwn-api/src/ingest_pool.rs:224-248 | in every run a recovery pass has on its list only jobs that were running when it read them |
| IngestOwnership.RecoveryClaimsTwice | mobipwn-api/src/ingest_pool.rs:224-248 | from any state with a held job and an idle slot, a recovery pass leads to two workers holding the same job |
| IngestOwnership.AdmissionReserves | mobipwn-api/src/ingest.rs:485-562 | a complete_upload that passes its checks stands before its unconditional status write with the job still uploading |
| IngestOwnership.OverlappingCompletesClaimTwice | mobipwn-core/src/store/ingest_jobs.rs:386-401 | two overlapping complete_upload calls of one job lead to two workers holding it |
| IngestOwnership.RacingInitClaimsTwice | mobipwn-core/src/store/ingest_jobs.rs:283-323 | an init_upload that read the old row before the job was queued and claimed opens it for upload again, and completing that upload leads to two workers holding it |
| IngestOwnership.LateFailureClaimsTwice | mobipwn-api/src/ingest.rs:517-528 | a complete_upload that read a wrong digest before the job was queued and claimed marks it failed, and a new upload of the archive leads to two workers holding it |
| IngestCapacity.StepMoves | mobipwn-api/src/ingest_pool.rs:106-151 | every step moves one worker's slot and its process's counter together, or changes only settings within 1..16 |
| IngestCapacity.SlotAccounting | mobipwn-api/src/ingest_pool.rs:106-151 | in every state of every run active is the number of workers holding a slot, and a release finds it positive |
| IngestCapacity.ActiveNeverExceedsPeak | mobipwn-api/src/ingest_pool.rs:106-116 | active never exceeds the largest limit the process has had, nor 16, stale reads included |
| IngestCapacity.ResizeTakesEffect | mobipwn-api/src/ingest_pool.rs:167-174 | after the last resize to n, once no larger limit is remembered, active cannot rise at or above n and stays at or below n once there |
| IngestQueue.QueueCap | mobipwn-api/src/ingest_pool.rs:194-216 | with the limit m > 0 fixed, at most N admissions in flight and no recovery, pending jobs and reservations together never exceed m - 1 + N, or the backlog found at start-up when that is larger |
| IngestQueue.OneRequestAtATime | mobipwn-api/src/ingest.rs:530-562 | with one admission at a time the pending jobs never exceed the limit |
| IngestQueue.TwoRequestsPassTheCap | mobipwn-api/src/ingest_pool.rs:51-53 | from a queue one below its limit, two overlapping admissions lead to a queue one above it |
| IngestQueue.CountDecides | mobipwn-api/src/ingest_pool.rs:204-216 | a request that counted n pending jobs goes on exactly when the limit is 0 or the low 32 bits of n are below it, and is answered otherwise |
| IngestQueue.UnlimitedReserves | mobipwn-api/src/ingest_pool.rs:51-53 | with the limit 0 a verified upload reserves its place from every state, whatever the backlog |
| IngestPool.IngestWorkerPool.constructor | mobipwn-api/src/ingest_pool.rs:56-69 | a new pool is idle, with the worker limit, queue limit and chunk size clamped |
| IngestPool.IngestWorkerPool.ApplyConfig | mobipwn-api/src/ingest_pool.rs:71-75 | the three settings take their clamped values and the counters stay |
| IngestPool.IngestWorkerPool.Resize | mobipwn-api/src/ingest_pool.rs:167-174 | the limit becomes the number asked for, at least 1 and at most 16, as the protocol's resize step has it, and the waiters are woken exactly when it changed |
| IngestPool.IngestWorkerPool.SetMaxQueue | mobipwn-api/src/ingest_pool.rs:77-79 | the queue limit becomes at most 10000 and nothing else changes, as the protocol's step has it |
| IngestPool.IngestWorkerPool.EvaluatePending | mobipwn-api/src/ingest_pool.rs:204-216 | the answer is queued exactly when the limit is 0 or the low 32 bits of the count are below it; else the counters as they are; and a request goes on in the protocol exactly when it is queued here |
| IngestPool.IngestWorkerPool.TryReserve | mobipwn-api/src/ingest_pool.rs:194-201 | the estimate is refreshed from the count, a negative one as zero, and kept when counting fails |
| IngestPool.IngestWorkerPool.TryAcquire | mobipwn-api/src/ingest_pool.rs:106-116 | run alone, a slot is taken exactly when active is below the limit, and pool and waiter end as after the three steps of the protocol |
| IngestPool.IngestWorkerPool.Release | mobipwn-api/src/ingest_pool.rs:151 | the slot is given back: active minus one, modulo 2^64, as the protocol's release step has it |
| Upload.NextKeepsValid | mobipwn-api/src/ingest.rs:282-565 | every request, init, chunk, complete or worker turn, keeps the link between each job's row, its file and what was accepted for it |
| Upload.FileIsWhatWasAccepted | mobipwn-api/src/ingest.rs:425-462 | after any sequence of requests an uploading job's file is the concatenation of the accepted bodies, and the acknowledged bytes are bytes_received and at most file_size |
| Upload.QueuedMeansVerified | mobipwn-api/src/ingest.rs:496-551 | a queued or running job has a file whose digest is the declared one and whose declared bytes were all acknowledged |
| Upload.UpperCaseHashIsNeverQueued | mobipwn-api/src/ingest.rs:290-296 | a job declared with an upper-case digest is never queued |
| Upload.CompleteQueuesExactlyWhen | mobipwn-api/src/ingest.rs:485-565 | complete_upload queues exactly when the upload is complete, its digest right and the queue has room; then only that status changes, and a full queue changes nothing: what the reply means in terms of the accepted bodies |
| Upload.AnyChunkingUploads | mobipwn-api/src/ingest.rs:406-483 | any cutting of the archive into bodies, sent in order, leaves the archive as the file, and completing it is decided by its digest and the queue |
| UploadRuns.OffsetDecides | mobipwn-api/src/ingest.rs:406-483 | a chunk is taken exactly when its job is uploading, it starts where the acknowledged bytes end, and it fits; any other offset of an uploading job is a conflict; what is not taken changes nothing |
| UploadRuns.AcceptedStaysPut | mobipwn-api/src/ingest.rs:431-462 | over every run, the bytes of an accepted chunk stay in the file where they were put until an init opens the job again, and that is the offset the client gave as long as every body written was acknowledged |
| UploadRuns.ResendIsRefused | mobipwn-api/src/ingest.rs:431-439 | over every run, a chunk that starts before the end of an accepted one is refused with a conflict and changes nothing, so a resent chunk is not appended twice |
| UploadRuns.InitDecides | mobipwn-api/src/ingest.rs:306-353 | the answer to an init whose source and digest are known, by the status of their row: conflict while uploading, pending or running, deduplicated when done with events still stored, created under the same id otherwise |
| UploadRuns.InitIsNew | mobipwn-api/src/ingest.rs:355-362 | an init of an unknown source and digest is created under the new id |
| UploadRuns.InitOpens | mobipwn-api/src/ingest.rs:282-404 | an init is a bad request exactly when the source is blank, the size not positive or the digest not 64 hexadecimal digits; an accepted one writes one fresh row and one empty file under a name made safe, in the directory of the job when it had failed and else in a new one; any other changes nothing |
| UploadRuns.CompleteRefuses | mobipwn-api/src/ingest.rs:485-529 | each error of complete_upload with its exact condition; only a wrong digest changes something, the status of that job |
| UploadRuns.RoomInTheQueue | mobipwn-api/src/ingest.rs:530-562 | with the limit 0 every complete and verified upload is queued whatever the backlog; with another limit exactly when fewer jobs are pending |
| UploadRuns.BacklogWraps | mobipwn-api/src/ingest_pool.rs:204-216 | a backlog of k * 2^32 + j jobs counts as one of j |
| UploadRuns.WorkerEnds | mobipwn-api/src/ingest.rs:735-895 | a claim takes a pending job to running, a finish takes a running job to done with its events and removes its archive, or to failed with none and keeps it; a job in another state is left alone |
| UploadRuns.RowStays | mobipwn-api/src/ingest.rs:282-404 | over every run a row keeps its source and digest, and an ended one stays as it is until an init opens it |
| UploadRuns.InitAfterFinish | mobipwn-api/src/ingest.rs:298-362 | over every run, the next init of an archive after its job was finished: deduplicated when events were stored and some are still there, else created under the same id, after a failure in the job's own directory |
| UploadRuns.RowsAreWellFormed | mobipwn-api/src/ingest.rs:286-296 | over every run each row has a source that is not blank, a positive size and a digest of 64 hexadecimal digits |
| IngestService.IngestService.InitUpload | mobipwn-api/src/ingest.rs:282-404 | the method's new state and reply are those of the upload protocol's init |
| IngestService.IngestService.UploadChunk | mobipwn-api/src/ingest.rs:406-483 | the method's new state and reply are those of the protocol's chunk, a write of any part of the body and a lost progress update included |
| IngestService.IngestService.CompleteUpload | mobipwn-api/src/ingest.rs:485-565 | the method's new state and reply are those of the protocol's complete, and past the queue check the pool's estimate is the number of pending jobs |
| IngestService.IngestService.ProcessIngestJob | mobipwn-api/src/ingest.rs:735-895 | a pending or running job whose archive is there and parses into n events ends done with n and its archive is removed; without an archive path, with an unreadable archive or a failed parse it ends failed with 0 and the files are kept; all other rows stay; a job in another state is left alone; and the new state is that of the protocol's worker turn |
| Batching.StableOrderUnique | mobipwn-ingest/src/clickhouse_insert.rs:182-186 | there is one stable order of the events by day, so the batches' concatenation is determined |
| Batching.GreedyIsMinimal | mobipwn-ingest/src/clickhouse_insert.rs:188-218 | when no day exceeds the row cap, no cutting of the stable day order into whole-day runs under both caps has fewer runs than a packed list |
| ClickHouseInsert.GroupByDay | mobipwn-ingest/src/clickhouse_insert.rs:182-186 | each day is mapped to exactly its events, in their original order |
| ClickHouseInsert.SplitDay | mobipwn-ingest/src/clickhouse_insert.rs:206-208 | an oversize day is cut into consecutive parts under the cap, all but the last full |
| ClickHouseInsert.PackDay | mobipwn-ingest/src/clickhouse_insert.rs:192-213 | one turn of the packer adds the day's events in order and keeps the batches packed |
| ClickHouseInsert.PartitionBatches | mobipwn-ingest/src/clickhouse_insert.rs:181-219 | the batches concatenate to the events stably sorted by day; each is non-empty, within the row cap and 90 days; a day is split only if it alone is over the cap; and no batch could have taken the day after it |
| InsertLoops.ClickHouse.InsertBatch | mobipwn-ingest/src/clickhouse_insert.rs:228-241 | an accepted insert appends the chosen events, a refused one nothing |
| InsertLoops.StableOrderPermutes | mobipwn-ingest/src/clickhouse_insert.rs:228-241 | the events picked in a stable order are a permutation of the events |
| InsertLoops.InsertEventsChunked | mobipwn-ingest/src/clickhouse_insert.rs:33-67 | on success the inserted rows are exactly the events, every insert within both caps, and the reports count them; on failure strictly fewer rows are in and none twice |
| InsertLoops.RoundsFacts | mobipwn-ingest/src/clickhouse_insert.rs:84-91 | n events make ceil(n/c) rounds that concatenate to them, all but the last of c events |
| InsertLoops.InsertEventsDraining | mobipwn-ingest/src/clickhouse_insert.rs:70-107 | on success the vector is empty, all rows are in and round i reports (i, ceil(n/c), min(i*c, n)); on failure in round k the vector is the suffix after min(k*c, n) and no row is in twice |
| InsertLoops.RoundsExact | mobipwn-ingest/src/clickhouse_insert.rs:143-157 | full chunks are the rounds of what they concatenate to |
| InsertLoops.IngestPrefix | mobipwn-ingest/src/timeline.rs:5-16 | what the whole-text form returns for a prefix of the lines is a prefix of what it returns for all |
| InsertLoops.IngestedAreEvents | mobipwn-ingest/src/timeline.rs:5-16 | the events of a text are the parses of its lines that have a character other than white space and parse, one each, in file order |
| InsertLoops.IngestAppends | mobipwn-ingest/src/timeline.rs:5-16 | text after text gives events after events |
| InsertLoops.IngestOne | mobipwn-ingest/src/timeline.rs:10-15 | one line gives its event exactly when it is not blank and parses to it, and nothing exactly when it is blank or does not parse |
| InsertLoops.InsertJsonlFileChunked | mobipwn-ingest/src/clickhouse_insert.rs:110-177 | a complete stream inserts exactly the rounds of the events of the lines that are not blank and parse, in file order, and returns their number; a read error loses fewer than c events; a failing insert stops after full chunks and part of the next |
| CursorToken.HexRoundTrip | mobipwn-search/src/pagination.rs:31-35 | base 16 (section 8 of RFC 4648) decodes what it encodes |
| CursorToken.HexIsLowerCase | mobipwn-search/src/pagination.rs:30-32 | a token has two lower-case digits for each byte |
| CursorToken.HexReadsEitherCase | mobipwn-search/src/pagination.rs:34-36 | the decoder reads letters of either case alike |
| CursorToken.QuoteParses | mobipwn-search/src/pagination.rs:31-36 | a quoted JSON string (section 7 of RFC 8259) is read back whatever bytes it holds and whatever follows |
| CursorToken.CursorParses | mobipwn-search/src/pagination.rs:31-36 | the printed cursor object is read back |
| CursorToken.TokenRoundTrip | mobipwn-search/src/pagination.rs:30-37 | decoding the token of any two strings gives the cursor, white space around it included |
| CursorToken.TokensAreDistinct | mobipwn-search/src/pagination.rs:30-32 | two cursors never share a token |
| Pagination.PageSplits | mobipwn-search/src/execute.rs:193-203 | every row below the cursor is served or below the last row served, and without has_more (limit below u32::MAX) all are served |
| Pagination.NoRowTwice | mobipwn-search/src/pagination.rs:58-79 | however the table changes between pages, no row is returned twice |
| Pagination.ReturnedUnlessInGap | mobipwn-search/src/pagination.rs:70-75 | a row present throughout is returned if and only if it is in no gap between a page's last row and the cursor made from it |
| Pagination.StableExactlyWhenSeparated | mobipwn-search/src/pagination.rs:58-79 | over every session whose tables hold rows of a universe and change in any way between pages, every row present throughout is returned for every page size, if and only if no row of the universe is above the cut of a row it is below |
| Pagination.SeparatedByMilliseconds | mobipwn-search/src/pagination.rs:70-75 | at the cursor's millisecond tick that asks of any two rows in one millisecond that the lower one lies on the whole millisecond and has the smaller id |
| Pagination.MillisecondCursorLosesRow | mobipwn-search/src/pagination.rs:70-75 | two rows two microseconds apart, read one by one from a table that does not change: the lower one is never returned |
| Pagination.StableUnderChange | mobipwn-search/src/execute.rs:163-203 | if the cursor were as precise as the column, every row present throughout would be returned |
| Pagination.FewerBelow | mobipwn-search/src/execute.rs:193-203 | following a cursor leaves strictly fewer rows below |
| Pagination.SessionFinishes | mobipwn-search/src/execute.rs:163-203 | on an unchanging table every session can be followed to a last page |
| Pagination.CompleteExactlyWhenSeparated | mobipwn-search/src/pagination.rs:70-75 | on an unchanging table all rows are returned for every page size if and only if no row is above the cut of a row it is below |
| Pagination.StaticPages | mobipwn-search/src/execute.rs:193-203 | then the pages concatenate to the whole result in descending (timestamp, id) order, in max(1, ceil(n/limit)) pages, all but the last full |
| SearchExecute.CutPage | mobipwn-search/src/execute.rs:193-203 | the extra row is cut off exactly when paging applies and it was there, else the rows are the page; and the token decodes to the last row's cursor |
| SearchExecute.CursorHolds | mobipwn-search/src/pagination.rs:39-47 | the cursor of a row holds its timestamp and its id, a string as it is and anything else as JSON prints it; there is one exactly when the row has both |
| Timestamps.DateOfDay | clickhouse/init.sql:8 | the date printed for a day is the valid Gregorian date with that day number |
| Timestamps.RangeIsYears | clickhouse/init.sql:8 | the microseconds that the column can hold, counted from 1970-01-01, are those of the years 1900 to 2299 |
| Timestamps.DateReads | mobipwn-search/src/pagination.rs:70-75 | a printed date of the years 1900 to 2299 is read back as its day |
| Timestamps.TimestampIsCut | mobipwn-search/src/pagination.rs:70-75 | every timestamp that the column can hold, printed with six digits of a second and read with three, is read as the timestamp in whole milliseconds |
| Timestamps.UuidsAreIdText | mobipwn-search/src/pagination.rs:70-75 | UUIDs printed in hexadecimal digits with dashes are a way of printing ids that can be read back, as the lemma below asks for |
| SearchExecute.PageServesMilliseconds | mobipwn-search/src/execute.rs:193-203 | for a table of rows that the columns can hold, the response is that of the paging model at the millisecond tick, and the next query reads its token as the cursor of that reply |
| SearchExecute.FirstSeenFacts | mobipwn-search/src/execute.rs:34-47 | the first occurrences of a list are its values, each once, in order of first appearance |
| SearchExecute.ColumnsFromRows | mobipwn-search/src/execute.rs:34-47 | every key of every row is a column, once, in order of first appearance, and nothing else is |
| CsvExport.RowsToCsv | mobipwn-search/src/export.rs:57-71 | the loop prints the header and one line for each row |
| CsvExport.FieldReads | mobipwn-search/src/export.rs:41-55 | a printed cell is read back (section 2 of RFC 4180) whatever its text |
| CsvExport.QuotedExactlyWhen | mobipwn-search/src/export.rs:49-54 | a cell is printed as it is exactly when it holds no comma, quote, CR or LF, and between quotes otherwise |
| CsvExport.NoColumns | mobipwn-search/src/export.rs:57-71 | without columns the export is a line feed for the header and one for each row |
| CsvExport.CleanReadsBack | mobipwn-search/src/export.rs:57-71 | with clean column names the header and every cell of every row are read back |
| CsvExport.UncleanHeaderIsLost | mobipwn-search/src/export.rs:58-60 | with a special character in a column name, or no columns, the header does not come back |
| CsvExport.ExportReadsBackExactlyWhen | mobipwn-search/src/export.rs:57-71 | the export reads back for all rows if and only if there are columns and their names need no quoting |
| CsvExport.NoCellLost | mobipwn-search/src/export.rs:41-71 | with the columns of the rows, each value of each row is shown by the cell read back in exactly one column: a string as it was, a number or compound value as JSON prints it, true or false, and nothing for null |
| CsvExport.AbsentIsEmpty | mobipwn-search/src/export.rs:61-69 | the cell of a column that the row lacks is read back empty |
| CronExpressions.NormalizeKeepsFields | mobipwn-jobs/src/scheduler.rs:139-146 | the fields of the expression are kept, with a zero seconds field before exactly five of them |
| CronExpressions.NormalizeTwice | mobipwn-core/src/enrichment/schedule.rs:48-55 | normalising again changes nothing |
| CronExpressions.AutomaticExactlyWhen | mobipwn-core/src/enrichment/schedule.rs:10-19 | a provider's text is an expression exactly when it is not blank and is not manual, disabled, off or none in any case with white space around it; the expression has the words of the text |
| CronScheduler.DesiredExactly | mobipwn-jobs/src/scheduler.rs:49-55 | with distinct ids the desired map holds exactly the listed targets |
| CronScheduler.SyncReconciles | mobipwn-jobs/src/scheduler.rs:47-97 | after a sync exactly the wanted rules whose registration did not fail are active, on the wanted expression; unchanged rules keep their job; one id is used for each new registration |
| CronScheduler.DroppedIsRemoved | mobipwn-jobs/src/scheduler.rs:57-81 | a job that a rule no longer has after a sync is gone from the runner unless its removal failed |
| CronScheduler.SyncKeepsConsistent | mobipwn-jobs/src/scheduler.rs:57-81 | a sync keeps each live job the one job of a rule or a leak, and the new leaks are the jobs whose removal failed |
| CronScheduler.RunIsConsistent | mobipwn-jobs/src/scheduler.rs:47-97 | over any run of syncs, whatever fails, the live jobs are one for each active rule, on its expression, and the leaks |
| CronScheduler.JobsAreActiveJobs | mobipwn-jobs/src/scheduler.rs:47-97 | while removals succeed the job set is exactly the job ids of the active rules, one each |
| CronScheduler.SecondSyncIsIdle | mobipwn-jobs/src/scheduler.rs:70-81 | after a sync without failed registration, a sync with the same rules adds and removes nothing |
| CronScheduler.CronReconciler.RemoveStale | mobipwn-jobs/src/scheduler.rs:57-68 | exactly the rules no longer wanted lose their job |
| CronScheduler.CronReconciler.Register | mobipwn-jobs/src/scheduler.rs:75-94 | a rule with the recorded expression is kept; another loses its job, if it had one, and is registered anew, or reported failed because a call refused its expression |
| CronScheduler.CronReconciler.Reconcile | mobipwn-jobs/src/scheduler.rs:47-97 | the whole sync is the relation that the lemmas above are about |
| CronScheduler.DetectionScheduler.Sync | mobipwn-jobs/src/scheduler.rs:47-97 | afterwards a rule is active if and only if it is listed with an expression that is not blank and its registration did not fail; its job runs on the words of that expression, with a zero in front of five; a failure means a refused call; every job dropped is gone or its removal failed |
| CronScheduler.EnrichmentScheduler.Sync | mobipwn-jobs/src/enrichment_scheduler.rs:41-98 | afterwards a provider is active if and only if it is listed, enabled, its text is neither blank nor a manual word in any case, and its registration did not fail; its job runs on the words of that text, with a zero in front of five; a failure means a refused call; every job dropped is gone or its removal failed |
| CaseCompare.CompareType | mobipwn-core/src/case_compare.rs:254-297 | the three lists of one type hold exactly the values only in a, only in b and in both, with their counts, the larger count first (the sum modulo 2^64 for both) and values of one count in lexicographic order |
| CaseCompare.OrderTypes | mobipwn-core/src/case_compare.rs:244-251 | the types come out once each, those of the fixed list first in its order, the rest by name |
| CaseCompare.CompareValueMaps | mobipwn-core/src/case_compare.rs:233-323 | the result is a comparison: one section for each type with a value, in order, and the summary adds the lists up |
| CaseCompare.ComparisonUnique | mobipwn-core/src/case_compare.rs:291-297 | the inputs determine the result, order included, whatever order the hash maps iterate in |
| CaseCompare.ComparisonMirrors | mobipwn-core/src/case_compare.rs:233-323 | swapping the inputs gives the same sections with a and b exchanged, order included |
| CaseCompare.ComparisonRebuildsA | mobipwn-core/src/case_compare.rs:263-289 | the first map, but for empty types, can be rebuilt from the sections |
| CaseCompare.ComparisonRebuildsB | mobipwn-core/src/case_compare.rs:263-289 | the second map, but for empty types, can be rebuilt from the sections |
| CaseCompare.SummaryAddsUp | mobipwn-core/src/case_compare.rs:299-321 | only-a plus shared is the number of values in a, only-b plus shared that in b, and sections counts the types with a value |
| EntityCounts.EntityMaps | mobipwn-core/src/case_compare.rs:210-219 | each type and value is mapped to the sum of its occurrences, modulo 2^64 |
| EntityCounts.TallyHolds | mobipwn-core/src/case_compare.rs:210-219 | the map has the types and values that occur, and for each the number of its occurrences modulo 2^64 |
| EntityCounts.OccurrencesAdd | mobipwn-core/src/case_compare.rs:210-219 | occurrences add up over groups and over the entities of a group, and one entity counts its own and no other |
| EntityCounts.MergeTypeMaps | mobipwn-core/src/case_compare.rs:221-231 | counts of the same type and value are added, modulo 2^64, and all others kept |
| EntityCounts.MergeIsTally | mobipwn-core/src/case_compare.rs:210-231 | merging the maps of two lists of groups is the map of the lists together |
| EntityCounts.CompareEntityResponses | mobipwn-core/src/case_compare.rs:325-330 | the comparison of two lists of groups is that of their tallies |
| MplValues.ValueReadsBackExactlyWhen | mobipwn-search/src/mpl/parser.rs:609-615 | a printed value is read back if and only if it needs no escape, is not empty when quoted, and has no white space, bar or closing parenthesis when bare |
| MplValues.SingleQuotedReads | mobipwn-search/src/mpl/parser.rs:609-615 | a value without a single quote is read back between single quotes |
| MplReading.LeafReadsExactlyWhen | mobipwn-search/src/mpl/parser.rs:561-615 | a printed condition on an ASCII name is read as it is meant, before anything that may follow it, if and only if the name can be read and the value reads back |
| MplReading.ConjunctionReads | mobipwn-search/src/mpl/parser.rs:488-501 | texts that read as primaries, joined with AND, read as their conjunction before anything that is no AND |
| MplReading.DisjunctionReads | mobipwn-search/src/mpl/parser.rs:473-486 | texts that read as AND expressions, joined with OR, read as their disjunction |
| MplReading.GroupIsPrimary | mobipwn-search/src/mpl/parser.rs:503-515 | between parentheses they read as one primary, whatever follows |
| MplQueries.SafeIsKept | mobipwn-search/src/mpl/parser.rs:20-50 | a text in which something other than white space and a bar follows every comma is not rewritten |
| MplQueries.CommaBeforeBar | mobipwn-search/src/mpl/parser.rs:20-50 | a comma before a bar, outside quotes, is dropped with the white space behind it, and a blank takes its place |
| MplQueries.QueryReads | mobipwn-search/src/mpl/parser.rs:60-83 | a parenthesised text that reads as an expression, with the row limit behind it, is a query for that expression |
| MplRoundTrip.PrintReads | mobipwn-search/src/mpl/parser.rs:473-615 | every expression of comparisons with any operator, value lists with or without NOT, starred words, NOT, AND and OR, nested at will, is read back from its printed text before anything that may follow it |
| MplRoundTrip.BangReads | mobipwn-search/src/mpl/parser.rs:561-589 | a mark before the name makes any comparison an inequality |
| MplRoundTrip.QueryRoundTrip | mobipwn-search/src/mpl/parser.rs:60-83 | the query printed for such an expression is parsed back to it |
| MplSearch.GlobOfInside | mobipwn-search/src/sql_gen.rs:542-555 | without wildcards of its own a value between two stars is a substring search |
| MplSearch.PatternKeptExactlyWhen | mobipwn-search/src/sql_gen.rs:559-605 | a search on one field matches every event whose field matches the pattern, if and only if the pattern is not made of stars only and is not the name of another searchable field |
| MplMisreading.StuckIsLost | mobipwn-search/src/mpl/parser.rs:453-515 | a query of texts in which the parser stops before their end, where no parenthesis closes, matches no event: it is refused |
| MplMisreading.EarlyIsLost | mobipwn-search/src/mpl/parser.rs:503-515 | a query of texts that close the parenthesis early matches no event: it is refused |
| MplMisreading.SplitSearched | mobipwn-search/src/mpl/parser.rs:453-467 | a query of values with a blank is read as a conjunction that begins with the part before the first blank |
| SigmaConvert.SelectionToMpl | mobipwn-core/src/sigma_convert.rs:124-132 | the loop joins the texts of the fields with AND and fails at the first field that cannot be converted |
| SigmaConvert.ConvertSelections | mobipwn-core/src/sigma_convert.rs:41-50 | every object of the detection section but the condition is converted under its name, nothing else is, and one that cannot be converted fails the rule |
| SigmaMeaning.KeyIsParsed | mobipwn-core/src/sigma_convert.rs:134-153 | a written key without modifier, with contains, or with contains and all is split into the column and the modifier |
| SigmaMeaning.SingleReads | mobipwn-core/src/sigma_convert.rs:173-204 | the text of a clean value is read as the alternatives it was printed for |
| SigmaColumns.SearchedColumns | mobipwn-core/src/sigma_convert.rs:134-200 | the query of a literal value matches an event exactly when one of the columns that the Sigma field stands for is the value, or holds it: which columns, and which of the two, for each field |
| SigmaMeaning.TestReads | mobipwn-core/src/sigma_convert.rs:155-171 | the text of a clean test, with one value or a list, is read as the expression TestExpr |
| SigmaMeaning.TestIsSound | mobipwn-core/src/sigma_convert.rs:155-200 | that expression matches whatever the Sigma test matches, and nothing else unless the test is widened |
| SigmaMeaning.SelectionReads | mobipwn-core/src/sigma_convert.rs:124-132 | the text of a clean selection is read as one AND expression, which matches whatever the selection matches and nothing else unless a test is widened |
| SigmaConditions.SplitJoined | mobipwn-core/src/sigma_convert.rs:93-113 | splitting a condition's text at a connective gives back its parts |
| SigmaConditions.NamesAreLower | mobipwn-core/src/sigma_convert.rs:93-107 | a condition with a connective finds only selections whose names are in lower case |
| SigmaConditions.SingleKeepsCase | mobipwn-core/src/sigma_convert.rs:107-113 | a condition that is one name finds the selection with exactly that name |
| SigmaConditions.QueryMeansAnyKept | mobipwn-core/src/sigma_convert.rs:93-122 | the query text of a rule whose kept selections are clean is read, and matches whatever any kept selection means and nothing else unless a test is widened; there is no query exactly when no selection is kept |
| SigmaConditions.FaithfulLosesNothing | mobipwn-core/src/sigma_convert.rs:93-122 | one selection, only or, or only and, with clean selections: every event of the Sigma rule matches the query as it is read |
| SigmaConditions.MixedLosesMatches | mobipwn-core/src/sigma_convert.rs:95-100 | for every mixed condition with an uncovered group, a rule and an event whose match is lost |
| SigmaConditions.LosesNothingExactlyWhen | mobipwn-core/src/sigma_convert.rs:93-122 | every clean rule becomes a query that loses no match if and only if the condition is one group or covers each group with a name that stands alone |
| SigmaConditions.NothingKeptIsRefused | mobipwn-core/src/sigma_convert.rs:115-117 | a rule is refused exactly when its condition keeps no selection |
| SigmaConditions.OrIsExact | mobipwn-core/src/sigma_convert.rs:95-100 | without and, with clean selections and no widened test, query and rule match the same events |
| SigmaDialects.DialectIsClean | mobipwn-core/src/sigma_convert.rs:173-204 | every test written in a readable dialect is clean |
| SigmaDialects.ValueIsLost | mobipwn-core/src/sigma_convert.rs:202-204 | for every character that a value cannot hold, a test with it and an event whose match is lost |
| SigmaDialects.NameIsLost | mobipwn-search/src/mpl/parser.rs:561-607 | for every ASCII character that a field name cannot hold, a test with it and an event whose match is lost |
| SigmaDialects.ModifierIsLost | mobipwn-core/src/sigma_convert.rs:134-153 | for every modifier that the converter does not know, a test with it and an event whose match is lost |
| SigmaDialects.DialectLosesNothingExactlyWhen | mobipwn-core/src/sigma_convert.rs:93-204 | every rule written in a dialect becomes a query that loses no match if and only if the condition covers every group and the dialect's names, values and modifiers can be read; it is refused exactly when no selection is kept |
| ParserProgress.StepInv | mobipwn-ingest/src/sysdiagnose_report.rs:244-302 | every lock operation, list update and report keeps the locks, the lists and the reports in agreement |
| ParserProgress.RunIsSafe | mobipwn-ingest/src/sysdiagnose_report.rs:241-304 | in every interleaving each lock has one holder, no parser is active and completed, and at most `threads` are active |
| ParserProgress.ReportsCountUp | mobipwn-ingest/src/sysdiagnose_report.rs:256-298 | every report is consistent with its own text, and the completed number goes up by one with each finish report and never otherwise |
| ParserProgress.NoDeadlock | mobipwn-ingest/src/sysdiagnose_report.rs:249-285 | until all parsers are done, some parser can move |
| ParserProgress.RunEndsAtTotal | mobipwn-ingest/src/sysdiagnose_report.rs:241-304 | every run ends within 16 steps for each parser, with no lock held, no parser active, all completed and the last report at the total |

## Left out
- Databases, object storage and files: the job table, the event table and the upload files are values; a call succeeds or fails as an argument or an oracle says. A failed ClickHouse insert is taken to have inserted nothing of its batch.
- Worker panics, cancelled requests, inline ingest and re-ingest, deletion of jobs, sidecar option files, and the contents of the reports a worker writes.
- The queued estimate inside the interleaving model: a handler reads the count of pending jobs exactly; the fallback to the estimate is in `IngestPool.IngestWorkerPool.TryReserve` only.
- Spawning the waiters of a pool, and the guard against starting it twice.
- IngestService.IngestService.UploadChunk: one request is one step; chunks of one job that race are not modelled.
- InsertLoops.InsertJsonlFileChunked: a line's normalisation is an uninterpreted function, and the lines of the file are given; byte decoding and line splitting are not modelled.
- Counters in `InsertLoops` and the length counters are unbounded; only the additions of entity counts wrap at 2^64.
- Calendar arithmetic in batching: the partition day of an event is an integer; the hash of a file is an uninterpreted function.
- Timestamps.TimestampIsCut: the database prints and reads in UTC, takes timestamps of the years 1900 to 2299, rounds whole seconds before 1970 down, and drops digits behind the third when it reads; the reader is given texts that the database printed.
- SearchExecute.PageServesMilliseconds: which number the id of a row has in the order of the table is left open.
- Pagination.PageSplits: rows are identified by timestamp and id, the id as a number; SQL texts that mention ORDER BY or GROUP BY, even inside a quoted word of the search, take other branches of apply_search_pagination and are not modelled. The outer query is taken to keep the order of the inner one.
- CursorToken.TokenRoundTrip: the decoder also accepts, in the source, an array of two strings and unknown members that are not strings, and refuses bytes that are no UTF-8; the model's decoder does not.
- SearchExecute.ColumnsFromRows: a row is an object with its members in iteration order; rows that are no objects are left out, and nested values are kept as printed text.
- JSONL export, time bounds, admission limits, dashboards, HTTP routing, authentication, settings screens and the web front end.
- CronScheduler.CronReconciler.Reconcile: the loop shared by the two schedulers is modelled once, over entries already filtered; job ids are numbers handed out in order, and a failed removal leaves the job in place. What a job does when it fires is left out.
- CronExpressions.NormalizeKeepsFields: whether an expression is a valid cron expression is left to the job runner, which may refuse it.
- CaseCompare.CompareValueMaps: the stable library sort is an insertion sort; the orders tell all items of a list apart, so the result is the same. Dropping telemetry types, device metadata and platform detection are left out.
- MplReading.DisjunctionReads: of the commands after a bar only head is read, without the 32-bit bound of its number; a query that begins with a time range is not modelled.
- MplReading.LeafReadsExactlyWhen: the letters and digits of a field name are the ASCII ones; the parser also takes others, so names are ASCII where the reading must fail.
- MplRoundTrip.PrintReads: words without a star are not printed, since what they are read as depends on what follows; values are printed between double quotes, so they hold none and are not empty, and starred words begin with a star or a question mark.
- SigmaColumns.SearchedColumns: for values with wildcards, or that are empty or the name of a searchable field, only `TestIsSound` says what is matched.
- MplSearch.PatternKeptExactlyWhen: an event maps columns to strings, compared with case, and an absent column is empty; tags, installers and numeric columns, and the SQL text with its quoting, are not part of this model. A bare word searches the message by an uninterpreted function.
- SigmaMeaning.TestIsSound: Sigma's own default compares without case, and the generated search with case; the meaning here has case. The names of Sigma fields are mapped to columns by the converter's table on both sides. Modifiers other than contains, startswith, endswith and all, backslash escapes of wildcards, and list items that are no strings are left out.
- SigmaConditions.QueryMeansAnyKept: conditions are names joined with single blanks, lower case and ASCII; `not`, parentheses and counts are left out. Equality for `and` is false of the code, which joins the parts with OR; only the direction that loses no match is stated.
- SigmaConditions.OrIsExact: whether a widened test really matches more depends on the event; the lemma asks for none.
- SigmaDialects.DialectLosesNothingExactlyWhen: a dialect has no value that is empty, made of stars only or the name of a searchable field, holds the letters x and y, and uses at least no modifier and contains; searchable fields have readable names of two or more characters, as all those of mobipwn-core/src/mudm/fields.rs have.
- Rule file metadata, severity mapping and the YAML and SQL writers.
- ParserProgress.RunIsSafe: a callback is given and parser names are distinct; the thread pool starts a parser only on a free thread, so parsers that themselves use the pool are left out, and so are poisoned locks.
