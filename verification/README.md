# Delivery integrity and projection: a verified model

The collector receives usage events and conversation records from proxies, stores them once, tells each
proxy up to which sequence number its log may be pruned, turns stored events into priced facts and keeps
quota counters over the facts. This project models that pipeline over abstract tables (a map or set with
its unique key) and proves what it promises. HTTP, SQL text, drivers and logging are not modelled; faults,
clocks, map orders, the enricher's answers and the interleaving of callers are arbitrary parameters.

| file | what it holds |
|---|---|
| `WatermarkStore.dfy`, `OdsRepository.dfy` | the watermark, ledger and event tables; the repository's methods as loops over rows |
| `WatermarkProtocol.dfy`, `StreamFloors.dfy`, `WatermarkBounds.dfy` | the same methods cut at their SQL statements, any number of callers interleaved; what becomes of floors; how high watermarks get |
| `WatermarkRuns.dfy`, `Integrity.dfy` | whole runs: confluence, ledger soundness, reconciliation; the scanner's verdict and hole count |
| `UsageIngest.dfy`, `UsageResend.dfy` | batch ingest with rollback and replay under a fault script; series of deliveries and resends |
| `ConversationIngest.dfy`, `ConversationRaces.dfy` | who owns a sequence number, first system text, conversation batches; interleaved callers |
| `Projector.dfy`, `ProjectorSafety.dfy`, `ProjectorFacts.dfy`, `ProjectorProgress.dfy`, `ProjectorRuns.dfy` | scans, retries and drains; crash safety; what facts contain; termination and what a scan adds; notable runs |
| `QuotaPeriods.dfy`, `WeekLabel.dfy`, `Quota.dfy`, `QuotaDebounce.dfy`, `QuotaFaults.dfy` | period keys and ISO weeks; quota counters; debounced against per-fact work; failing statements |
| `Search.dfy`, `Migration.dfy`, `ControlCache.dfy`, `Pricing.dfy` | LIKE escaping, the resumable migration, the control-event cache, the price lookup |
| `Sets.dfy`, `Options.dfy`, `Database.dfy`, `Facts.dfy` | shared small definitions |

The conversation stream's watermark methods (collector-service/internal/conversation/repository_sql.go:182-332)
are the usage stream's with presence counted per org; the `Lane` parameter covers both, in every watermark lemma.

A statement may fail before it takes effect or after (its reply is lost), and so may a COMMIT. Operations
that change state or loop are methods with a contract that equates their effect with a specification function;
the other results are lemmas about those functions. Lemmas named `...Exact` without a row spell single operations out in terms
of their inputs alone. `dafny verify dfyconfig.toml` checks everything.

## Where the code does not do what its comments say

Each point is a lemma below, with the exact condition where there is one.

- A declared stream floor can be overwritten by a slower advance, for good: declaring it again is a no-op
  (`FloorOverwritten`, `FloorsKeptIff`); a declaration can also answer without being recorded (`FloorMissed`,
  `DeclarationRecordedIff`). The contiguous value handed to a client stays safe to prune to all the same (`SafeToPrune`).
- `ConfirmLost` reports more promotions than it ledgers when a number is declared twice (`ConfirmLostCount`).
- The hole count can under-report: rows sharing a number are subtracted twice (`HoleCountNeverUnder`).
- The background promotion does nothing when its window shows no hole, even if the row lags (`WorkerStalls`).
- On PostgreSQL a row that breaks another constraint fails its statement, counts as transient and is answered
  503 for ever, not rejected in a 200 (`AcknowledgeableIff`). On SQLite the event time in the dedup check is not harmless: an
  event resent with another time is refused for good as an internal error (`UnstableTimeRefused`).
- A batch whose COMMIT was durable but reported an error is replayed on top of it, and answers `duplicated` for
  rows it has just stored; the response counts then fall short of the growth (`UsageResend.SeriesKeeps`).
- On PostgreSQL two orgs whose events share an id and a day are never both projected (`ProjectsIff`, `TwinsNeverBoth`); a
  dead-lettered row may still have its fact (`DeadLetterFactIff`, `DeadLetterWithFact`).
- After a durable projector COMMIT that reported an error the replay can turn a projected row into a retry
  (`UnheardCommitReopens`, `AbsorbingIff`), and the facts of that commit are never handed to quota (`ScanReportsNewFacts`).
- A conversation's session text is lost if its write fails during the replay, although the record is
  answered as accepted (`ConversationIngest.IngestOneStores`); an event id that changes its day can make one slot
  have two accepted records (`OwnershipKeptIff`, `UnstableDayDoubles`), and so can two callers at once (`OwnedThroughoutIff`).
- Debounced quota work differs from per-fact work when a fact without a seat is counted by a group that
  lists the empty seat (`DebounceExact`).
- A cached miss is served whatever the event time is, so the cache is not equivalent to the query (`EquivalentIff`); the
  events it serves are the query's exactly when rows in force together start together (`SoundIff`).
- The migration updates by event id alone, so rows that share an id are not each given their own conversion, and runs
  need not agree (`RunExact`, `OneOutcomeIff`).

## Model

| member | source | states |
|---|---|---|
| OdsRepository.Repository.PresentSeqSet | collector-service/internal/ingest/repository_sql.go:336-372 | the two bounded scans, merged row by row, give exactly the numbers of the window that were received or ledgered: by any org of the source in the usage stream, by the row's own org in the conversation stream |
| OdsRepository.Repository.AdvanceWatermark | collector-service/internal/ingest/repository_sql.go:242-327 | alone, the method writes the zipper's result and the two high-water marks, and changes nothing else |
| OdsRepository.Repository.EnumerateMissingSeqs | collector-service/internal/ingest/repository_sql.go:377-399 | the missing list is the increasing list of unaccounted numbers of the window-clipped span |
| OdsRepository.Repository.RecordKnownLoss | collector-service/internal/ingest/repository_sql.go:402-413 | every listed number is ledgered once, then the watermark advances over it |
| OdsRepository.Repository.ApplyStreamFloor | collector-service/internal/ingest/repository_sql.go:420-463 | a floor that is not positive is refused; otherwise it raises the row or seeds one, and the flag says whether a row changed |
| OdsRepository.Repository.GapSeqs | collector-service/internal/ingest/repository_sql.go:469-497 | the unaccounted numbers up to the effective limit, and truncated exactly when the gap exceeds it |
| OdsRepository.Repository.ConfirmLost | collector-service/internal/ingest/repository_sql.go:500-546 | only genuinely absent, positive, issued numbers are ledgered; an empty or ineligible list still advances |
| WatermarkStore.Zip | collector-service/internal/ingest/repository_sql.go:261-268 | the walk stops before the first absent number and passes only present ones |
| WatermarkStore.Missing | collector-service/internal/ingest/repository_sql.go:389-398 | exactly the absent numbers of the span, in increasing order |
| WatermarkStore.Eligible | collector-service/internal/ingest/repository_sql.go:521-540 | exactly the declared numbers that are positive, at most the ceiling, and in neither table under any org |
| WatermarkStore.RecordLossSeen | collector-service/internal/ingest/repository_sql.go:402-413 | afterwards a number is accounted for exactly when it was before or was listed |
| WatermarkStore.SeenIsPresent | collector-service/internal/conversation/repository_sql.go:182-332 | a number counts for a usage row when any org of its source has it, for a conversation row only when its own org and source has it |
| WatermarkProtocol.NextOk | collector-service/internal/ingest/repository_sql.go:242-463 | one SQL statement of one caller keeps what every caller believes true: all numbers up to its value are accounted for |
| WatermarkProtocol.ExecOk | collector-service/internal/ingest/repository_sql.go:242-546 | the same over every interleaving of arrivals, advances, losses, floors and confirmations, dropped calls included |
| WatermarkProtocol.ReachableAccounted | collector-service/internal/ingest/repository_sql.go:242-463 | in every reachable state each number between a row's floor and its watermark is there for that row: under its source in the usage stream, under its own org and source in the conversation stream |
| WatermarkProtocol.SafeToPrune | collector-service/internal/ingest/service.go:159-187 | a contiguous value once returned stays good in every later state: each number up to it is there for that row in that sense, or at or below its floor, so the client may prune its log to it |
| WatermarkProtocol.UninterruptedAdvance | collector-service/internal/ingest/repository_sql.go:242-327 | the five statements run without interruption are the atomic advance |
| WatermarkProtocol.UninterruptedFloor | collector-service/internal/ingest/repository_sql.go:420-463 | the floor statements run without interruption are the atomic floor declaration |
| WatermarkProtocol.UninterruptedRecord | collector-service/internal/ingest/repository_sql.go:402-413 | the inserts and the advance of a known loss run without interruption are the atomic operation |
| WatermarkProtocol.UninterruptedConfirm | collector-service/internal/ingest/repository_sql.go:500-546 | the reads, inserts and advance of a confirmation run without interruption are the atomic operation, its count the losses recorded |
| WatermarkProtocol.ArrivedStays | collector-service/internal/ingest/repository_sql.go:140-232 | every event that arrived in a run is stored at its end |
| StreamFloors.FloorsKeptIff | collector-service/internal/ingest/repository_sql.go:242-463 | over any interleaving every watermark is at or above its floor in every state, exactly when no caller writes a value below the floor its row has at that moment |
| StreamFloors.UndisturbedKeepsFloors | collector-service/internal/ingest/repository_sql.go:242-325 | it is enough that no floor is raised on a row between a caller's read of the watermark and its write |
| StreamFloors.NeverBackIff | collector-service/internal/ingest/repository_sql.go:295-325 | no stored watermark ever goes back, exactly when no caller writes a value its row has moved past |
| StreamFloors.DeclarationRecordedIff | collector-service/internal/ingest/repository_sql.go:420-463 | when a declaration answers its floor is recorded exactly when its seed met no lower row or another declaration of at least that floor raised the row meanwhile; then it stays recorded |
| WatermarkProtocol.FloorOverwritten | collector-service/internal/ingest/repository_sql.go:295-325 | a reachable state has a watermark below its floor, and redeclaring that floor changes nothing |
| WatermarkProtocol.FloorMissed | collector-service/internal/ingest/repository_sql.go:420-463 | a reachable declaration is about to answer although its floor was never recorded |
| WatermarkRuns.AdvanceMoves | collector-service/internal/ingest/repository_sql.go:242-268 | one advance goes to the end of the connected run or one window further, whichever is nearer |
| WatermarkRuns.AdvanceSettles | collector-service/internal/ingest/repository_sql.go:234-268 | repeated advances settle on the end of the connected run once their windows span the distance, and stay there |
| WatermarkRuns.SeenIsNamed | collector-service/internal/ingest/repository_sql.go:336-372 | after any run of arrivals, advances, recorded losses and floors the accounted numbers are just those the run names, whatever order, repetition or org |
| WatermarkRuns.RunCovers | collector-service/internal/ingest/repository_sql.go:242-463 | over runs of whole operations of every kind: the floor is the highest declared, 0 <= floor <= watermark, only accounted numbers lie between them, and neither ever goes back |
| WatermarkRuns.Confluence | collector-service/internal/ingest/repository_sql.go:242-268 | two runs of any operations that account for the same numbers and declare the same highest floor settle on the same watermark: the end of the connected run from that floor |
| WatermarkRuns.PlainConfluence | collector-service/internal/ingest/repository_sql.go:242-268 | without confirmations and promotions the numbers two runs name decide, in any order and repetition |
| WatermarkRuns.OrgsConverge | collector-service/internal/ingest/repository_sql.go:336-372 | after any run in the usage stream the rows of two orgs of a source settle on the same watermark, if they declare the same floor |
| WatermarkRuns.OthersDoNotMatter | collector-service/internal/conversation/repository_sql.go:182-332 | what a run leaves under some rows is what it leaves when all other operations are removed: any rows in the conversation stream, whole sources in the usage stream |
| WatermarkRuns.OrgsApart | collector-service/internal/conversation/repository_sql.go:182-332 | a conversation row's watermark, floor and settled value are those of the run without the other orgs' operations |
| WatermarkRuns.GapsExact | collector-service/internal/ingest/repository_sql.go:469-497 | the gaps told are the absent numbers above the watermark, up to the highest received or issued one, at most the limit or else the scan window |
| WatermarkRuns.MarksExact | collector-service/internal/ingest/repository_sql.go:270-325 | an advance makes max_seen the highest number the row has seen or sees stored and issued the highest the client said, and leaves floors and other rows alone |
| WatermarkRuns.ConfirmLostCount | collector-service/internal/ingest/repository_sql.go:533-545 | a ledger row is new exactly when it was declared, positive, at most the ceiling, and absent from events and ledgers of all orgs; the promoted count is never below that growth, and equals it exactly when no accepted number was declared twice |
| WatermarkRuns.ConfirmLostOvercounts | collector-service/internal/ingest/repository_sql.go:500-546 | a reachable call that reports two promotions and ledgers one |
| WatermarkBounds.ReachableBounded | collector-service/internal/ingest/repository_sql.go:242-546 | over every interleaving in which losses are recorded by ConfirmLost or for findings under the marks (worker.go:323-339), no watermark exceeds every max_seen, client_allocated and floor of its source's rows, and no ledgered number their marks |
| WatermarkRuns.RoundProgress | collector-service/internal/ingest/repository_sql.go:469-546 | asking for gaps and confirming them all advances at least to the limit or the ceiling, without raising the ceiling |
| WatermarkRuns.ReconcileConverges | collector-service/internal/ingest/repository_sql.go:469-546 | n rounds with n * limit at least the gap bring the watermark to its ceiling |
| WatermarkRuns.RoundFreshens | collector-service/internal/ingest/repository_sql.go:283-325 | a row whose max_seen lags is brought up to date by any one round |
| WatermarkRuns.WorkerProgress | collector-service/internal/projector/worker.go:323-356 | the worker's promotion changes nothing exactly when its missing list is empty, and else reaches the window's end or the ceiling |
| WatermarkRuns.WorkerStalls | collector-service/internal/projector/worker.go:337-339 | a run after which everything has arrived, the row lags, promotion does nothing and an empty confirmation closes it |
| Integrity.SourceCompleteness.Classify | collector-service/internal/integrity/integrity.go:218-267 | status by precedence middle gap, tail gap, silence; pending tail, promotability and truncated ages, with absent ages never stale |
| Integrity.StatusExact | collector-service/internal/integrity/integrity.go:218-267 | when each label and promotability hold, in terms of the marks, ages and thresholds |
| Integrity.TailExact | collector-service/internal/integrity/integrity.go:218-267 | the pending tail is the number of issued numbers above the watermark and above the highest received one |
| Integrity.NoGapEver | collector-service/internal/integrity/integrity.go:218-267 | a row reports no gap under all ages and thresholds exactly when its watermark has reached its ceiling |
| Integrity.PromotableIsAlarmed | collector-service/internal/integrity/integrity.go:60-65 | no source is promoted without a gap being reported, exactly when the promotion threshold is at least both alarm thresholds |
| Integrity.DefaultAlarms | collector-service/internal/integrity/integrity.go:68-75 | with the production thresholds that holds, and a gap is reported exactly when the watermark is below its ceiling and stale for ten minutes |
| Integrity.ReconciledIsClean | collector-service/internal/integrity/integrity.go:218-267 | after the converging rounds: no middle or tail gap, no pending tail, not promotable |
| Integrity.HoleCountExact | collector-service/internal/integrity/integrity.go:275-307 | the count is absent numbers plus those only other orgs hold minus surplus rows, clamped at zero |
| Integrity.HoleCountNeverUnder | collector-service/internal/integrity/integrity.go:275-307 | it is at least the true number of holes exactly when there are none or the surplus rows do not outnumber what other orgs hold |
| Integrity.HoleCountSafe | collector-service/internal/integrity/integrity.go:275-307 | with one row per number it never under-reports, failed counting queries included |
| Integrity.HoleCountOneOrg | collector-service/internal/integrity/integrity.go:288-303 | with one row per number and one org per source it is exact, resurrected numbers included |
| Integrity.HoleCountHidden | collector-service/internal/integrity/integrity.go:275-307 | a run hides a real hole: number 2 stored under two events, 1 missing, and the row's own span counts none |
| UsageIngest.Service.IngestInto | collector-service/internal/ingest/service.go:195-281 | one event through validation, defaults, hash check, insert and dedup, leaving the event with its defaults |
| UsageIngest.Service.TryBatch | collector-service/internal/ingest/service.go:66-96 | the transaction succeeds exactly when nothing inside, its opening or its commit reported an error; the table holds its rows exactly if the COMMIT was durable, heard of or not, and reached events keep their defaults |
| UsageIngest.Service.IngestBatch | collector-service/internal/ingest/service.go:53-110 | rows, events, results, counters, metric deltas and touched sources of the batch, committed or replayed |
| UsageIngest.Service.TallyResults | collector-service/internal/ingest/service.go:114-154 | response counters, metric deltas (a transient rejection is not counted) and the sources to advance, from the final results only |
| UsageIngest.SilentFault | collector-service/internal/ingest/repository_sql.go:140-232 | a fault that did not surface as transient changed nothing |
| UsageIngest.BatchIsPerEvent | collector-service/internal/ingest/service.go:53-110 | under every placement of faults, lost replies included, a batch ends as the per-event path alone on the table its attempt left: fault-free if the transaction committed, else under the replay's faults |
| UsageIngest.BatchExact | collector-service/internal/ingest/service.go:53-110 | the transaction counts exactly when it opened, met no transient failure and its commit succeeded; if it left nothing the batch is the event-by-event pass, and after a durable unheard commit that pass over what it left |
| UsageIngest.FaultsSurface | collector-service/internal/ingest/repository_sql.go:140-232 | whenever a statement failed a complete event is answered as transient, so that it is resent |
| UsageIngest.CommittedIsFinal | collector-service/internal/ingest/service.go:66-96 | a committed attempt contains no transient result |
| UsageIngest.OneStatusEach | collector-service/internal/ingest/service.go:114-154 | accepted, quarantined, duplicated and rejected add up to the batch |
| UsageIngest.TallyExact | collector-service/internal/ingest/service.go:114-154 | each counter is the number of results of its status |
| UsageIngest.BumpedExact | collector-service/internal/ingest/service.go:114-154 | the metrics grow by the same, transient rejections left out, conflicts counted among the duplicates |
| UsageResend.BatchIsPerEventIff | collector-service/internal/ingest/service.go:53-110 | a batch does what the per-event path alone does, under every replay, exactly when no unheard COMMIT had stored anything |
| UsageResend.IngestOneShape | collector-service/internal/ingest/repository_sql.go:140-232 | a row is added exactly when the answer is accepted or quarantined or the insert's reply was lost on a free key, with the event's defaulted content |
| UsageResend.SeriesKeeps | collector-service/internal/ingest/repository.go:84-106 | over any deliveries rows keep their first content, every new row is a delivered event, and the table grows by at least accepted plus quarantined, with equality exactly when no reply was lost that had stored a row |
| UsageResend.AcknowledgedIsStored | collector-service/internal/api/ingest.go:84-97 | after a 200 every valid, storable event of that delivery is stored at the end of the series |
| UsageResend.ExactlyOnce | collector-service/internal/ingest/repository_sql.go:140-232 | however often it was sent, such an event has exactly one row, given one event_time per id |
| UsageResend.RedeliveryIsDuplicate | collector-service/internal/ingest/repository_sql.go:211-227 | a redelivery changes nothing and is a conflict exactly when both hashes are known and differ from the first stored one |
| UsageResend.UnstableTimeDoubles | collector-service/internal/ingest/repository_sql.go:151-162 | on PostgreSQL the same event with another event_time is stored twice |
| UsageResend.AcknowledgeableIff | collector-service/internal/api/ingest.go:84-97 | a batch can be acknowledged at all exactly when no sound event of it breaks another PostgreSQL constraint |
| UsageResend.StoredIsSeen | collector-service/internal/ingest/repository_sql.go:336-372 | a newly stored event's number counts as received, billed or quarantined |
| UsageResend.QuarantineExact | collector-service/internal/ingest/service.go:224-281 | a new row has the event's columns and is quarantined exactly when its hash is of a known scheme and does not verify; the answer is accepted exactly if the row is not quarantined |
| UsageResend.SeriesVerdicts | collector-service/internal/ingest/service.go:224-281 | over any deliveries each new row records one delivered event so, and an event once answered accepted or quarantined is stored in the end, billed exactly if accepted |
| UsageResend.NewRowsTouched | collector-service/internal/ingest/service.go:114-154 | a new numbered row's source is among those whose watermark advances, unless its reply was lost |
| UsageResend.UnstableTimeRefused | collector-service/internal/ingest/repository_sql.go:216-232 | on SQLite an event resent with another event_time is refused for good |
| ConversationIngest.Service.IngestInto | collector-service/internal/conversation/service.go:162-224 | one record through validation, owner lookup, insert, dedup and session upsert, with every statement that fails or whose reply is lost |
| ConversationIngest.Service.IngestBatch | collector-service/internal/conversation/service.go:43-128 | org pinning first, then the transaction or the per-record replay on what it left, with final tables, results, counters and touched sources |
| ConversationIngest.VerdictExact | collector-service/internal/conversation/repository_sql.go:49-62 | if the slot holds only other events, any row the lookup returns gives the same verdict: quarantined exactly when the slot is taken |
| ConversationIngest.OwnershipKeptIff | collector-service/internal/conversation/service.go:162-224 | storing keeps "accepted exactly if first in its slot" for every lookup result unless a fresh row meets its own event id in the slot |
| ConversationIngest.UnstableDayDoubles | collector-service/internal/conversation/repository_sql.go:32-37 | from empty tables, an event id sent again with another day is accepted twice in one slot |
| ConversationIngest.SeriesKeeps | collector-service/internal/conversation/service.go:62-100 | over any series of deliveries, conflicts, rollbacks and replays: the first stored of a slot is the accepted one, rows are only appended, sessions keep their first text |
| ConversationIngest.OneOwner | collector-service/internal/conversation/service.go:162-224 | every taken slot has exactly one accepted record, its first, and all others are quarantined |
| ConversationIngest.IngestOneStores | collector-service/internal/conversation/service.go:162-224 | any answer but rejected means the record is stored; its session row exists exactly if it did before or its write succeeded, and then with this text |
| ConversationIngest.AnswerExact | collector-service/internal/conversation/service.go:162-224 | without faults a record is stored as it is unless its id is taken on its UTC day; a twin of its own org makes it a duplicate, of another org an internal error; the row is quarantined exactly if the answer says so |
| ConversationIngest.QuarantineExact | collector-service/internal/conversation/service.go:168-187 | a record is quarantined only over another event's row with its org, source and number, and accepted only without one or beside a row of its own |
| ConversationIngest.TallyExact | collector-service/internal/conversation/service.go:104-128 | each counter is the number of results of its status |
| ConversationIngest.SeriesStores | collector-service/internal/conversation/repository_sql.go:72-109 | over any series an acknowledged record stays stored and no primary key is stored twice |
| ConversationIngest.CommittedIsFaultFree | collector-service/internal/conversation/service.go:62-88 | a transaction that did not fail did what a fault-free run does, with no transient result |
| ConversationIngest.BatchExact | collector-service/internal/conversation/service.go:43-100 | the same exact account of a conversation batch's transaction and replay |
| ConversationIngest.FaultsSurface | collector-service/internal/conversation/service.go:162-235 | every failing statement fails the transaction, and all but the session's make the record be resent |
| ConversationIngest.StoredTouched | collector-service/internal/conversation/service.go:104-128 | a newly stored numbered record has its source's watermark advanced, unless its insert's reply was lost |
| ConversationRaces.LookThenStore | collector-service/internal/conversation/service.go:162-224 | a caller whose look-up and store follow one another does what ingesting the record alone does |
| ConversationRaces.OwnedThroughoutIff | collector-service/internal/conversation/service.go:162-224 | over any interleaving of callers each slot's first record is its one accepted record in every state, exactly when no row is added with a verdict its slot has outdated |
| ConversationRaces.NoRivalOwned | collector-service/internal/conversation/service.go:162-224 | it is enough that no row joins a caller's slot between its look-up and its store and its own event is not there yet |
| ConversationRaces.TwoCallersBreakOwnership | collector-service/internal/conversation/repository_sql.go:49-62 | a run from the empty table in which two callers both look before either stores leaves two accepted records in one slot |
| Projector.LowestExact | collector-service/internal/projector/repository_sql.go:33-57 | the fetch takes the lowest ids, in order, as many as the limit allows |
| Projector.Worker.ProjectOneOn | collector-service/internal/projector/worker.go:548-598 | canary short-circuit, enrich failure, insert outcome and mark on the given tables; in a PostgreSQL transaction no mark after a failed statement |
| Projector.Worker.ProjectBatchTx | collector-service/internal/projector/worker.go:417-477 | succeeds exactly when no mark, save, opening or commit reported an error; the tables hold its work exactly if the COMMIT was durable, metrics only if it was heard |
| Projector.Worker.ProjectPerEvent | collector-service/internal/projector/worker.go:388-409 | each row by autocommit, metrics and checkpoint as the results say |
| Projector.Worker.ScanOnce | collector-service/internal/projector/worker.go:361-383 | tables, metrics, number fetched and new facts of one scan, transaction or replay |
| Projector.Worker.DrainOnce | collector-service/internal/projector/worker.go:242-257 | scans until one is short, the context is done or 400 were made |
| ProjectorSafety.ProjectKeeps | collector-service/internal/projector/worker.go:388-471 | a pass leaves each fetched row with its own mark, or as it was if the mark failed, and no other row changed |
| ProjectorSafety.StepSafe | collector-service/internal/projector/worker.go:388-471 | every step (arrival, fetch, whole transaction, single write, single mark, stop) keeps tables and worker queue consistent and closed rows unchanged |
| ProjectorSafety.ReplayIsTwoSteps | collector-service/internal/projector/worker.go:548-598 | the replay of a row is the machine's fact write followed by its mark |
| ProjectorSafety.CrashSafe | collector-service/internal/projector/worker.go:548-629 | in every reachable state a projected non-canary row has exactly one fact, canaries and quarantined rows none, every fact its row, lost replies included; projected, dead_letter and quarantined are absorbing while every durable commit is heard of |
| ProjectorSafety.AbsorbingIff | collector-service/internal/projector/worker.go:388-471 | those statuses are absorbing over a run exactly when none of its steps is the error mark of a row its own unheard commit had closed |
| ProjectorSafety.OwnFact | collector-service/internal/projector/repository_sql.go:270-362 | with one row per event a projected row's fact carries that row's id |
| ProjectorFacts.ProjectionFacts | collector-service/internal/projector/enricher.go:200-245 | a projection adds at most the row's own fact, under its key, with the row's id, org, event id and time and the enrichment's seat, period, amounts and other columns |
| ProjectorFacts.ScanFacts | collector-service/internal/projector/worker.go:561-589 | the facts a scan hands to quota carry their rows and the answers of its last pass, and are stored so |
| ProjectorFacts.ReachableFacts | collector-service/internal/projector/repository_sql.go:270-362 | in every reachable state each fact belongs to a row of its org, id and time, and carries one answer the enricher gave when that row was projected |
| ProjectorFacts.InsertExact | collector-service/internal/projector/repository_sql.go:270-362 | when the fact insert stores, finds a duplicate, fails its statement or is swallowed, for any tables |
| ProjectorFacts.FaultsSurface | collector-service/internal/projector/worker.go:548-629 | whenever the insert's statements failed the row is not marked projected, and in a PostgreSQL transaction its mark fails too |
| ProjectorFacts.ScanExact | collector-service/internal/projector/worker.go:361-477 | a scan's transaction counts exactly when it opened, no mark failed, its checkpoint was saved and its commit succeeded; if it left nothing the scan is the row-by-row one |
| ProjectorRuns.UninterruptedScan | collector-service/internal/projector/worker.go:361-477 | with nothing in between, the machine's steps are the scan |
| ProjectorRuns.UnheardCommitReopens | collector-service/internal/projector/worker.go:388-477 | a reachable step that turns a projected row into a retry: its commit was durable but reported an error, and the replay's enrichment fails |
| ProjectorRuns.TwoWorkersReopen | collector-service/internal/projector/worker.go:39-49 | a run of two workers from empty tables, with every reply heard, reopens a projected row: the single-instance constraint is needed |
| ProjectorProgress.ClashExact | collector-service/internal/projector/repository_sql.go:270-362 | a fact under a free key clashes with another unique key exactly when, on PostgreSQL, another org's event has the same id and day |
| ProjectorProgress.ProjectsIff | collector-service/internal/projector/worker.go:548-598 | an enriched, admissible row projects without faults exactly when its fact is stored already or no such twin is |
| ProjectorRuns.TwinFails | collector-service/internal/projector/repository_sql.go:270-362 | a reachable state in which an enriched, admissible row meets its projected twin of another org and fails without any fault |
| ProjectorRuns.TwinsNeverBoth | collector-service/internal/projector/repository_sql.go:270-362 | on PostgreSQL two orgs' events of one id and day are never both projected, in any reachable state |
| ProjectorProgress.ScanReportsNewFacts | collector-service/internal/projector/worker.go:388-477 | the facts handed to quota are new DWD rows, each once, also after rollback and replay; they are all of them exactly when no durable commit went unheard with facts and no insert lost its reply |
| ProjectorProgress.CheckpointExact | collector-service/internal/projector/worker.go:400-409 | a scan sets the checkpoint to the highest id it fetched, even a lower one, unless neither its transaction nor its replay saved it |
| ProjectorProgress.MetricsMatchTable | collector-service/internal/projector/worker.go:472-477 | the projected counter grows by exactly the rows that became projected, the dead-letter one by at least its rows |
| ProjectorProgress.OutcomeCounts | collector-service/internal/projector/worker.go:520-534 | the counters are the numbers of rows per outcome; a projection with a failed mark is not counted, a failed error mark is |
| ProjectorProgress.TwentyProjections | collector-service/internal/projector/worker.go:617-629 | with marks succeeding a row is projected at most 20 times, is closed after 20, and is dead-lettered only at the twentieth |
| ProjectorProgress.FailureSchedule | collector-service/internal/projector/repository_sql.go:156-167 | a row that keeps failing waits 3 x 1 minute, 7 x 10 minutes, 9 x 1 hour and is dead 613 minutes after its first failure |
| ProjectorProgress.HotLoopBounded | collector-service/internal/projector/worker.go:231-257 | a drain whose marks all fail over a full page fetches it again and again, stops at the round cap and leaves the event table unchanged |
| ProjectorProgress.DeadLetterFactIff | collector-service/internal/projector/worker.go:548-629 | a row that ends as dead letter has a fact exactly when its key was in the DWD before, or that projection's insert took effect with its reply lost |
| ProjectorRuns.DeadLetterWithFact | collector-service/internal/projector/worker.go:548-629 | a run from the empty database that ends with a dead-lettered row whose fact is stored |
| ProjectorProgress.ScanRemovesIff | collector-service/internal/projector/worker.go:361-383 | an unfailing scan removes exactly its fetched rows from the eligible set, limit of them or all, exactly when each retry it schedules falls due later than the drain lasts |
| ProjectorProgress.DrainClears | collector-service/internal/projector/worker.go:242-257 | a drain of any length in which no retry falls due clears a backlog below limit times the cap, ending on the first short scan with none left; from a larger one it takes limit rows a scan |
| ProjectorProgress.MinuteDrain | collector-service/internal/projector/repository_sql.go:156-167 | a drain shorter than a minute is such a one, the shortest delay being one minute |
| QuotaPeriods.YearLength | collector-service/internal/quota/storage.go:244-253 | years have 366 days exactly when the Gregorian rule says leap |
| QuotaPeriods.InYear | collector-service/internal/quota/materializer.go:249-252 | the year computed for a day contains that day, before and after 1970 |
| QuotaPeriods.WeekDays | collector-service/internal/quota/storage.go:240-253 | the range of a day's ISO week contains exactly the seven days with that label, over leap years and year ends |
| QuotaPeriods.CalendarWeek | collector-service/internal/quota/storage.go:240-253 | a day's week starts on a Monday and contains it; its year is the one of its Thursday, its number the Thursdays of that year so far (section 4.1.4 of ISO 8601:2004) |
| QuotaPeriods.LabelDays | collector-service/internal/quota/storage.go:244-253 | every label from 1 to 53 denotes its own days, except a week 53 the year lacks, which denotes week 1 of the next; other labels denote none |
| QuotaPeriods.KeysAgree | collector-service/internal/quota/storage.go:217-238 | a fact is summed for a key exactly when its own key is that one, for every period and instant |
| QuotaPeriods.MonthAgreesIff | collector-service/internal/quota/materializer.go:253-258 | for months that holds exactly when the fact has a billing period |
| WeekLabel.LabelRoundTrip | collector-service/internal/quota/storage.go:244-248 | a week label written with zero padding scans back to the same year and week |
| Quota.IndexExact | collector-service/internal/quota/materializer.go:45-80 | a seat's subjects are exactly those it rolls up to, itself and its groups |
| Quota.DistinctPeriodsExact | collector-service/internal/quota/materializer.go:207-218 | exactly the non-empty periods of the rules |
| Quota.TouchedExact | collector-service/internal/quota/materializer.go:128-147 | a call recomputes a bucket exactly when it moved that metric and the key is the call's key of a rule's period |
| Quota.TriggerExact | collector-service/internal/quota/materializer.go:151-188 | thresholds latch: old percentages stay and exactly the reached ones of the bucket's positive limits are added |
| Quota.TriggeredExact | collector-service/internal/quota/materializer.go:148-180 | after a faultless pass a bucket holds its sum, and the percentages it held or that a rule of its metric and period with a positive limit lists and amount >= limit * percentage / 100 |
| Quota.LeastTrigger | collector-service/internal/quota/materializer.go:157-157 | a one-rule bucket's least triggering amount is that percentage of the limit, rounded up |
| Quota.ListedOnce | collector-service/internal/quota/materializer.go:151-160 | no percentage or period is listed twice |
| Quota.Materializer.EnsureConfig | collector-service/internal/quota/materializer.go:45-74 | a fresh cache or a failed load keeps the last configuration, else the index is rebuilt |
| Quota.Materializer.RecomputeFromDWD | collector-service/internal/quota/storage.go:125-191 | the counter is set to the sum over the table and keeps its triggered list; a failing sum or write changes nothing, a failing read comes after the write |
| Quota.Materializer.ApplyToSubject | collector-service/internal/quota/materializer.go:111-198 | buckets whose sum could be written are refreshed, checked unless reading or marking fails, all others unchanged, in any map order |
| Quota.Materializer.OnFact | collector-service/internal/quota/materializer.go:87-107 | nothing for an empty seat, else every applicable subject in turn, each bucket with its own fault |
| QuotaDebounce.FlushBatch | collector-service/internal/projector/worker.go:479-506 | one call per seat, billing period and UTC day with summed amounts, in some order |
| QuotaDebounce.GroupTotals | collector-service/internal/projector/worker.go:479-506 | each group has the summed tokens and money of the facts of its seat, billing period and UTC day |
| QuotaDebounce.PerFactAt | collector-service/internal/projector/worker.go:575-586 | per fact, a bucket ends with the sum at its last hit and the percentages that sum crosses |
| QuotaDebounce.DebouncedAt | collector-service/internal/projector/worker.go:479-506 | debounced, every hit bucket ends equal to the sum over the committed table |
| QuotaDebounce.GroupsHit | collector-service/internal/projector/worker.go:479-505 | the groups hit a bucket exactly when one of the facts does |
| QuotaDebounce.BucketAgreesIff | collector-service/internal/projector/worker.go:479-506 | per bucket both paths agree on amount and triggered set exactly when no summed fact without a seat follows the last hit |
| QuotaDebounce.DebounceExact | collector-service/internal/projector/worker.go:410-417 | both paths end with the same amounts and triggered sets in every bucket, for any order, exactly when no bucket has such a fact |
| QuotaDebounce.SeatedFactsAgree | collector-service/internal/projector/worker.go:479-506 | they agree whenever every fact has a seat or no subject lists the empty one |
| QuotaDebounce.BlankSeatBreaks | collector-service/internal/quota/materializer.go:87-90 | a group listing the empty seat beside another one is such a case |
| QuotaFaults.FaultyAt | collector-service/internal/quota/materializer.go:111-198 | whatever fails, a bucket ends with the sum at the last hit that wrote it and exactly the percentages it held or the sum at the last hit that marked crosses |
| QuotaFaults.FaultsShowIff | collector-service/internal/quota/materializer.go:111-198 | faults leave no trace in a bucket exactly when its amount is the sum at its last hit and every percentage that sum crosses was held or is crossed by the last marked sum |
| QuotaFaults.FaultsHeal | collector-service/internal/quota/materializer.go:111-198 | in particular when the bucket's last hit met no fault |
| QuotaFaults.LastFaultShows | collector-service/internal/quota/materializer.go:135-190 | a failed mark on the call that brings a seat to its limit leaves the percentage untriggered |
| Search.EscapedPrefix | query-service/internal/conversation/repository_sql.go:95-98 | an escaped term matches itself and nothing else at the front of a text |
| Search.EscapingExact | query-service/internal/conversation/repository_sql.go:95-124 | h LIKE '%' + escape(k) + '%' ESCAPE '\' holds exactly when h contains k (LIKE of section 8.5 of ISO/IEC 9075-2) |
| Search.EscapeRoundTrip | query-service/internal/conversation/repository_sql.go:95-98 | escaping loses nothing |
| Search.RawTermWidens | query-service/internal/usage/repository_sql.go:1270-1274 | without escaping a metacharacter widens the match |
| Search.AppendSeatFilter | query-service/internal/conversation/repository_sql.go:113-130 | a row passes exactly when its seat key is listed or contains the folded term, with arguments in placeholder order |
| Search.AppendKeyword | query-service/internal/usage/repository_sql.go:1274-1285 | a row passes exactly when one of the rendered columns contains the folded keyword |
| Migration.Table.Reprice | collector-service/cmd/reproject-pure-input/main.go:131-170 | one row's split and price are the update of its conversion |
| Migration.Table.Select | collector-service/cmd/reproject-pure-input/main.go:90-127 | the snapshot is every row of version 0.1.0 or priced without rates, once, in no particular order |
| Migration.Table.Run | collector-service/cmd/reproject-pure-input/main.go:84-194 | a run cut off after any number of updates leaves what those updates by event id leave; a finished one converts each row on its own exactly under the condition of RunExact, with the printed counts |
| Migration.RunExact | collector-service/cmd/reproject-pure-input/main.go:84-194 | every selected row gets its own conversion and no other row changes, exactly when selected rows sharing an id carry the same update and an unselected one has that update's columns already |
| Migration.UniqueIdsConvert | collector-service/cmd/reproject-pure-input/main.go:84-194 | in particular when event ids are unique |
| Migration.SharedIdsCollide | collector-service/cmd/reproject-pure-input/main.go:178-184 | two orgs' rows under one id: any finished run leaves both with the same input |
| Migration.OneOutcomeIff | collector-service/cmd/reproject-pure-input/main.go:84-194 | however runs are interrupted and ordered they end with one table, exactly when selected rows sharing an id give rise to the same update |
| Migration.ConvertsOnceIff | collector-service/cmd/reproject-pure-input/main.go:90-105 | interrupted runs leave each row untouched or converted once, exactly when rows do not disturb one another |
| Migration.ResumableIff | collector-service/cmd/reproject-pure-input/main.go:90-105 | interrupted runs followed by one that finishes convert each row on its own, exactly under that condition |
| Migration.Idempotent | collector-service/cmd/reproject-pure-input/main.go:90-105 | after a run that finishes nothing is selected, ids shared or not |
| Migration.ConvertedRow | collector-service/cmd/reproject-pure-input/main.go:131-184 | a converted row column by column: amount and rates of one lookup, with the pure input and the whole context; without a price the amount goes and rates and currency stay |
| Migration.SplitConservesInput | collector-service/cmd/reproject-pure-input/main.go:137-149 | pure, cached and creation add up to the old input, and the tier sees the same context size, exactly when the old input covered both caches; a second split changes nothing; at any rates the converted row costs what the old one did with the cache flag (cost.go:31-44) |
| ControlCache.Reader.Find | collector-service/internal/projector/cached_control_reader.go:111-139 | live misses and covering hits are served, everything else asks the query and is cached, errors are not; a served event is the query's answer if rows in force together start together, and with disjoint rows only a live miss can differ from the query |
| ControlCache.Reader.Add | collector-service/internal/projector/cached_control_reader.go:137-137 | the entry is stored, others stay or the least recently used one goes |
| ControlCache.SoundIff | collector-service/internal/projector/cached_control_reader.go:111-152 | over any lookups, clock readings and evictions every served event is one the query answers, exactly when no two rows of a key with different starts are ever in force together |
| ControlCache.ChainCovers | collector-service/internal/projector/cached_control_reader.go:141-152 | a history in which each row ends when the next starts has exactly one row in force at every time of its span |
| ControlCache.EquivalentIff | collector-service/internal/projector/cached_control_reader.go:29-44 | then the cache equals the query over lookups at given times, misses included, exactly when no key is in force at some of those times only |
| ControlCache.ServedYoung | collector-service/internal/projector/cached_control_reader.go:111-139 | a reply that is not the query's own was its reply to an earlier lookup of the key less than the time-to-live ago, and a served event is in force at the looked-up time |
| ControlCache.ServedAgainIff | collector-service/internal/projector/cached_control_reader.go:111-139 | a query's reply is served again exactly while it is young and, if an event, in force |
| Pricing.BuildCanonicalIndex | collector-service/internal/pricing/resolver.go:123-149 | the index gives each canonical name the price of its winner: the last native entry by key, else the first prefixed one |
| Pricing.IndexDeterministic | collector-service/internal/pricing/resolver.go:115-149 | it depends only on the price map, not on iteration order, and a name with a native entry gets a native price |
| Pricing.ParseOverlayHistory | collector-service/internal/pricing/loader.go:113-129 | each model's entries, the same ones, latest first |
| Pricing.SortUnique | collector-service/internal/pricing/loader.go:123-127 | with distinct dates the unstable sort has one result |
| Pricing.FirstApplicable | collector-service/internal/pricing/resolver.go:181-190 | the first applicable entry is the one with the greatest date not after the request |
| Pricing.Lookup | collector-service/internal/pricing/resolver.go:168-209 | the first matching layer answers: override, history in force, exact list price, canonical fallback, else unpriced |
| Pricing.LayersExact | collector-service/internal/pricing/resolver.go:168-209 | which layer answers, as the source tag says |
| Pricing.LookupDeterministic | collector-service/internal/pricing/resolver.go:168-209 | two answers to one request agree if dates are distinct per model |
| Pricing.TierSettles | collector-service/internal/pricing/resolver.go:211-228 | returned rates are final: applying a tier again changes nothing |
| Pricing.CostPerToken | collector-service/internal/pricing/cost.go:31-44 | each kind of token costs its own rate and nothing else costs anything |

## Left out

- 64-bit wrap-around: sequence numbers, times and token sums are unbounded; a floor or number near 2^63 is not covered.
- Statement errors inside the watermark methods: a failing call is a caller that stops mid-way, which the interleaved machine allows at every statement.
- The watermark call after a batch: the ingest model ends with the set of sources to advance; what an advance does is the watermark model's.
- ProjectorSafety.CrashSafe: a status mark that takes effect with its reply lost is a mark that succeeded; only the metrics would differ.
- Partition retention, which drops old rows: no step of any model deletes a row.
- Integrity.SourceCompleteness.Classify: Scan's passes over several tables (quarantine and loss counts, sorting) are not modelled, only the verdict and the hole count of one row.
- Search.AppendSeatFilter: case folding is an arbitrary function applied to both sides; the differences between the two databases' LOWER are not modelled, nor are pagination, sorting and the other filters.
- Projector.Worker.ProjectOneOn: the enricher is an arbitrary answer per projection, and a fact's tokens are one amount, not the five columns it sums; its classification branches, the unpriced queue and the snapshot registry are not modelled.
- Projector.Worker.DrainOnce: the context is checked between scans only; logging of the round cap is left out.
- ProjectorProgress.DrainClears: about drains whose marks succeed and in which no retry falls due; what failing marks do is HotLoopBounded.
- ProjectorSafety.StepSafe: one worker, as worker.go:39-49 requires; two workers are only shown to break it.
- Quota.Materializer.OnFact: amounts are integers in the smallest unit, so float rounding is left out, and so are alerts and sync-version pushes.
- QuotaDebounce.DebounceExact: no counter statement fails (QuotaFaults is about those that do); the configuration is fixed during the batch and amounts are not negative; which action fires first is not claimed.
- QuotaPeriods.KeysAgree: days are numbers; the text form of daily and monthly keys and the text comparison of dates in SQL are not modelled, nor are period names that contain a colon after "daily", "weekly" or "monthly".
- WeekLabel.LabelRoundTrip: years from 0 on; signs and white space that scanning also accepts are not modelled.
- Migration.Table.Run: prices come from an arbitrary resolver; serialisation of rates always succeeds.
- ControlCache.Reader.Find: concurrent lookups are left out, since the projector looks up serially.
- Pricing.Lookup: canonicalModel is an arbitrary function; the list-price file's parser and its number formats are left out.
- Hash schemes, JSON, HTTP handlers, token checks, configuration, the dashboard queries and exports.
