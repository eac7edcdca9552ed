# Verified model of the monitor's storage engine

This project models, in Dafny, the parts of the monitoring daemon that decide what its history
charts, inactivity filters and status logs say, and proves that they say what happened.

* **The tiered history engine.** Observations are accepted into versioned epochs, time is queued as
  spans, `rollup` moves spans piece by piece into 5-minute, hourly and daily buckets behind moving
  retention boundaries, `prune` deletes expired rows in bounded batches, and `query` rebuilds a chart
  from materialised rows, unfinished spans and live tails. A log of every accepted observation gives
  all of this one meaning: each observation holds until the next one, the end of its epoch or its
  freshness limit, and a chart is the time integral of that. The central invariant, `History.Conserved`,
  says that at or after a tier's boundary each bucket's row and queue add up to exactly the samples and
  the settled time of the log. An archive keeps every epoch there ever was, deleted ones included, with
  its log: every chart, and the raw samples and change events, are measured against that archive.
* **Usage inactivity.** Only changed polls are stored, old rows are pruned down to an anchor, and a
  coverage row and a retention floor guard the answer. The verdict is proved to be the verdict over a
  log of every poll.
* **Reloads and fences.** Writers carry the generation they were started with; a reload replaces the
  catalogue, the identities, the cache and the TCP rows in one step. The jobs of all monitors go on
  storing what they observed before a reload until the fence turns them away; what any of them observed
  is counted at most once.
* **The maintenance scheduler**, with crashes and completions that cannot be stored.
* **ICMP transitions**, stored with retries that may commit and still be reported as failed, before and
  after a reload, while old ones are deleted; and the history sample of the same write.

How it is laid out: value-level modules say what one transaction does and carry the proofs (`History`,
`Rollup`, `Ingest`, `Sync`, `Prune`, `Plans`, `Chart`, `Percentile`, `Query`, `Usage`, `UsageInv`,
`Scheduler`, `Icmp`, `IcmpStore`); class and method modules update fields step by step, as the program does, and are
proved to do just that (`HistoryDb`, `QuerySetup`, `HistoryQuery`, `UsageDb`, `SchedulerDb`, `IcmpDb`);
`Scope`, `Truth`, `ChartLatency`, `Promises`, `Credits` and `PruneAnswers` say what an answer is made from,
what it means and what maintenance may change about it; `Moments` and `Samples` say what the log and each
check result mean; `LiveChecks`, `UsageTables` and `Scheduler` tie what is stored to the configuration and
the run; `Archive`, `HistoryRuns`, `Retries`, `Runner`, `Records`, `IcmpHistory`,
`Inactivity` and `UsageRuns` state what holds of every reachable state; `Witnesses` gives the runs on which a documented promise stops.
Result sets without an order are read in an arbitrary order, and a deletion with a limit picks
arbitrary rows.

Where the documentation promises more than the code keeps, the model follows the code:

* docs/history-maintenance.md:33-35 promises charts that maintenance does not change. Rollup changes no
  answer, unless just one of the two stores has too many rows to read (`Promises.RollupInvisible`).
  Deleting epochs changes no range and no statistics (`Promises.PruneInvisible`), and nothing at all when
  the range begins in a day no earlier than the epoch cutoff (`PruneAnswers.AnswerUnchanged`). An older
  range can lose eligible time, its earliest available time or a whole series:
  `Witnesses.PruningCanShow` is a run on which it does, and `PruneAnswers.AnswerAfterPrune` says exactly
  when.
* docs/history-maintenance.md:31-32 says that a retry does not count an observation again. Over whole runs
  of the history tables, storing an accepted observation again changes something if and only if the
  check's live epoch began at the very time of the observation and has taken nothing yet
  (`Retries.RetryCountsOnce`); on the run of `Witnesses.SampleAtTheEdge`, a reload at that time, it has.
  In the program such an epoch comes from a reload, and the generation fence turns away whatever was
  observed before it: what a job observed is counted at most once (`Runner.CountedOnce`).
* src/storage/sqlite/history/query.rs:188 selects epochs by `started < to` and `ended > from`. A sample
  taken at the very moment at which an epoch outside the range touches it is therefore not charted
  (`Witnesses.SampleAtTheEdge`); no other sample is missed (`Truth.ChartIsTruth`, `Truth.ChartSamples`).

## Model

| member | source | states |
|---|---|---|
| HistoryStats.MergeAssociates | src/domain/history.rs:26-49 | Merging records is associative, min, max and histogram included |
| HistoryStats.MergeCommutes | src/domain/history.rs:26-49 | Merging records does not depend on their order |
| HistoryStats.DurationAdds | src/domain/history.rs:98-114 | The record of a stretch of time is the merge of the records of its two parts |
| HistoryStats.BoundsDouble | src/domain/history.rs:5-8 | The bounds of the histogram double from half a millisecond to 16.384 seconds |
| HistoryStats.Bin | src/domain/history.rs:90-94 | A latency falls in the first bin whose bound it does not exceed, else in the overflow bin |
| Tiers.FloorNests | src/storage/sqlite/history/mod.rs:64-66 | A finer bucket lies wholly inside the coarser bucket that holds its start |
| Tiers.BoundariesOrdered | src/domain/maintenance.rs:32-49 | With a valid configuration, coarser tiers' boundaries reach further back, and all lie before now |
| Tiers.AnsweredFor | src/storage/sqlite/history/mod.rs:64-76 | A tier answers for a bucket exactly when the bucket ends after the tier's configured retention begins |
| Tiers.BoundaryAdvances | src/storage/sqlite/history/mod.rs:64-76 | A tier's boundary is on its grid and never moves back |
| Percentile.LatencyP95 | src/domain/history.rs:50-63 | The loop computes the specified estimate |
| Percentile.HistogramTotal | src/domain/history.rs:76-97 | Over any tree of merges the histogram total is the latency count |
| Percentile.P95Present | src/domain/history.rs:50-63 | The estimate is present exactly when some latency was counted |
| Percentile.P95IsNinetyFive | src/domain/history.rs:50-63 | At least 95 in 100 of the latencies are at most the estimate, fewer than that are at most any bound below it, and it is a bound or, past the last, the largest latency |
| Percentile.P95Brackets | src/domain/history.rs:50-63 | The latency at which 95 in 100 are counted in order is at most the estimate and above every bound below it |
| Percentile.ColumnsAreTotals | src/domain/history.rs:26-49 | Over any tree of merges the counts, the latency sum and the duration columns are the totals of what went in |
| Percentile.ExtremesAreExact | src/domain/history.rs:31-36 | The recorded minimum and maximum are latencies that went in, and none lies outside them |
| Moments.HeldIsIntegral | docs/history-maintenance.md:40-42 | The integral gives each millisecond to the last observation at or before it, while that is fresh and its epoch lasts |
| Moments.SampledIsEach | src/domain/history.rs:76-97 | The samples of a window are those taken at its moments, one each |
| Moments.AcceptsWhatIsNew | src/storage/sqlite/history/ingest.rs:115-133 | A live epoch accepts exactly what was observed since it began, later than everything in its log and not in the future |
| Moments.ArchivedWasAccepted | docs/history-maintenance.md:29-32 | Every observation in the archive, deleted epochs included, was once accepted as it is |
| Samples.PollIsWorth | src/storage/sqlite/mod.rs:546-566 | A poll that worked is a success and tells its users for as long as it holds; a failed one counts as an attempt only |
| Samples.ConnectionIsWorth | src/storage/sqlite/tcp.rs:35 | A TCP connection is up time and a latency, a failed one down time and its error |
| Samples.PingIsWorth | src/storage/sqlite/mod.rs:478-495 | A ping counts by its own reply, its time by the status it left the host in |
| Inventory.WantsDistinct | src/storage/sqlite/history/ingest.rs:9-39 | A valid inventory never asks for the same check twice |
| Ingest.RecordKeepsInv | src/storage/sqlite/history/ingest.rs:106-149 | Accepting or ignoring an observation keeps every invariant, conservation in all three tiers included |
| Ingest.CloseKeepsInv | src/storage/sqlite/history/ingest.rs:83-105 | Closing an epoch settles its tail without losing or inventing time |
| Ingest.OpenKeepsInv | src/storage/sqlite/history/ingest.rs:61-67 | A new epoch starts after every earlier one of its check and holds nothing |
| Retries.StoredEntryIgnored | src/storage/sqlite/history/ingest.rs:123-133 | An observation in the log of the live epoch is ignored whenever it is stored again, its raw row deleted or not |
| Sync.LiveUnique | src/storage/sqlite/history/mod.rs:18 | At most one epoch of a check is live |
| Sync.SyncEstablishes | src/storage/sqlite/history/ingest.rs:40-82 | Synchronising keeps every invariant and makes the live epochs exactly the wanted checks, with their current signatures |
| LiveChecks.SyncFollowsInventory | src/storage/sqlite/history/ingest.rs:3-87 | A check has a live epoch exactly when some host has it enabled, with the address, name, groups, interval, timeout, port and freshness configured; a live epoch stays exactly when it is configured as signed, else it ends now; what opens begins now, empty |
| LiveChecks.RunsFollowInventory | src/storage/sqlite/history/ingest.rs:3-87 | In every run, from one synchronisation to the next, the live epochs are exactly the enabled checks, as configured |
| Sync.SyncIdempotent | src/storage/sqlite/history/ingest.rs:53-58 | Synchronising the inventory in force again, at any later time, changes nothing |
| Rollup.ChunkInsideBucket | src/storage/sqlite/history/rollup.rs:16-35 | A chunk is not empty, lies in one bucket of each tier that receives it and never crosses the boundary of a tier that does not |
| Rollup.ChunkBalances | src/storage/sqlite/history/rollup.rs:16-42 | The time a chunk takes out of the queue is the time the receiving bucket gains |
| Rollup.StepKeepsContent | src/storage/sqlite/history/rollup.rs:10-52 | One iteration leaves each answered-for bucket's row plus queue unchanged |
| Rollup.StepsKeepInv | src/storage/sqlite/history/rollup.rs:10-52 | Any number of iterations keep every invariant and touch neither epochs nor the log |
| Rollup.StepMakesProgress | src/storage/sqlite/history/rollup.rs:11-51 | Each iteration removes a span or moves its cursor forward, never past its end |
| Rollup.StepsDrain | src/storage/sqlite/history/rollup.rs:10-56 | As many iterations as there are queued milliseconds empty the queue |
| Prune.PruneComplete | src/storage/sqlite/history/rollup.rs:58-105 | A batch that reports nothing more has left no event or raw row older than its retention, usage samples by their own, no bucket that ended before its tier's, and no epoch that ended before the daily and the event retention without a row |
| Prune.PruneSound | src/storage/sqlite/history/rollup.rs:58-105 | Only such rows go, and of the epochs only such that no row left refers to |
| Prune.RemovedAreGone | src/storage/sqlite/history/rollup.rs:65-104 | What a batch reports as removed is how many rows the tables have fewer, no more than the limit for each deletion |
| Prune.PruneKeepsInv | src/storage/sqlite/history/rollup.rs:58-105 | Pruning, whichever rows it picks, keeps every invariant of the tables and the epochs that are left |
| HistoryRuns.PruneArchivesNothing | src/storage/sqlite/history/rollup.rs:91-103 | And what it deletes goes to the archive with no sample and no time in any bucket of any later answer |
| Prune.DeletedEpochsHeldNothing | src/storage/sqlite/history/rollup.rs:91-103 | A deleted epoch held no sample and no time in any bucket still answered for |
| Chart.CellIsTruth | src/storage/sqlite/history/query.rs:229-289 | For one epoch and output bucket, rows, unfinished spans and live tail add up to the samples and the integral of the log |
| Plans.PlanTiles | src/storage/sqlite/history/query.rs:172-194 | The output buckets tile the returned range, which contains the requested one, and there are between 1 and max_points of them |
| Plans.SourceBucketInOneCell | src/storage/sqlite/history/query.rs:235-251 | Each source bucket has an output bucket in range that holds all of it, so none is dropped |
| Plans.SourceIsFinest | src/storage/sqlite/history/query.rs:172-185 | The source is exactly the finest tier that retains the whole range, is no finer than the points asked for and is little enough work, else the daily one |
| Plans.SourceRetainsRange | src/storage/sqlite/history/query.rs:173-189 | With a source finer than a day no part of the returned range lies before the retention boundary |
| Accounts.Moves | src/storage/sqlite/history/query.rs:243-251 | Adding a row to the series of its epoch and taking it out of the tables keeps the account, in any order |
| Accounts.Settles | src/storage/sqlite/history/query.rs:229-289 | Once every row in range has been read, each bucket is the sum over its series' epochs |
| Query.ClearedIsEmpty | src/storage/sqlite/history/query.rs:290-298 | Clearing buckets before the retention boundary removes nothing |
| Query.UnselectedHoldNothing | src/storage/sqlite/history/query.rs:167-188 | An epoch in scope that is not selected has no time in the returned range |
| Scope.OthersDoNotMatter | src/storage/sqlite/history/query.rs:20-27 | With every epoch of another kind, host, group or check taken out, rows included, the whole answer is the same, refusals included |
| Scope.SeriesAre | src/storage/sqlite/history/query.rs:59-70 | A series exists exactly for the keys, by breakdown, of the epochs of the kind, hosts, groups and check asked for that lie in the returned range |
| Scope.EligibleIsConfigured | src/storage/sqlite/history/query.rs:197-226 | Eligible time is the lifetime in the bucket of every epoch asked for |
| Scope.BucketsTile | src/storage/sqlite/history/query.rs:186-212 | The buckets of a series are the steps of the returned range, the last one cut short |
| Scope.RangeIsRounded | src/storage/sqlite/history/query.rs:186-194 | The range is the one asked for rounded outwards to source buckets, not past now; the step is the shortest that max_points allows |
| Scope.SourceIs | src/storage/sqlite/history/query.rs:167-185 | The source from the request, the configured retentions and the number of epochs reached, figures written out |
| Scope.AvailableIs | src/storage/sqlite/history/query.rs:299-304 | The earliest available time is the start of the first epoch in range, or where the source's retention begins |
| Scope.RefusedFor | src/storage/sqlite/history/query.rs:156-281 | A request is refused for its own bounds, more than 16 series, 10 000 epochs, 200 000 bucket rows or 50 000 spans, and for nothing else |
| Scope.AnsweredWithin | src/storage/sqlite/history/query.rs:235-266 | An answer was read from no more rows and spans than that |
| Scope.BoundsAre | src/domain/history.rs:159-197 | A request is valid exactly within these bounds on its range, points, kind, breakdown and names |
| Truth.OutsideTruth | src/storage/sqlite/history/query.rs:188 | Of an epoch outside the range exactly one sample can count: the one taken at the moment it touches the range |
| Truth.ChartIsTruth | src/storage/sqlite/history/query.rs:156-314 | Every column of every bucket, samples and latencies included, plus those missed samples, is the sum over every epoch of the kind, hosts, groups, check and key asked for |
| Truth.ChartSamples | src/storage/sqlite/history/query.rs:156-314 | A bucket's samples are the accepted samples of every epoch asked for, less one for each epoch outside the range with a sample at the edge |
| ChartLatency.ChartPercentile | src/storage/sqlite/history/query.rs:290-298 | A bucket shows a percentile exactly when a latency is charted in it; at least 95 in 100 of the charted latencies are at most that, fewer are at most any bound below it |
| Query.ChartIsIntegral | src/storage/sqlite/history/query.rs:156-314 | In every series and bucket the up, down, usage-observed and user time is the integral of the accepted observations of every epoch asked for |
| Promises.AnswerFromLog | docs/history-maintenance.md:33-35 | Two stores with the same epochs and accepted log give the same whole answer if and only if both or neither have too many rows to read |
| Promises.RollupInvisible | docs/history-maintenance.md:33-35 | Any number of rollup iterations at a clock no later than the query's leave the whole answer unchanged, if and only if both or neither of the stores have too many rows to read |
| Credits.CellPerEntry | docs/history-maintenance.md:40-42 | Rows, unfinished spans and live tail of a bucket are its samples and one share of time per observation, none above the freshness limit and none where the observation cannot hold |
| Credits.EntryAcrossBuckets | docs/history-maintenance.md:40-42 | Over all buckets of an answer the shares of one observation add up to at most its freshness limit |
| Credits.StoredPerEntry | docs/history-maintenance.md:40-42 | The materialised row and the queue of a stored bucket are its samples and one such share per settled observation |
| Credits.EntryAcrossTier | docs/history-maintenance.md:40-42 | Over any run of a tier's buckets the shares of one observation add up to at most its freshness limit |
| Promises.KnownTimeIsEligible | src/storage/sqlite/history/query.rs:197-289 | In every bucket of every series up plus down time, and usage-observed time, fit the eligible time |
| Promises.QueueAndTailApart | src/storage/sqlite/history/ingest.rs:88-105 | Every queued span is inside its epoch's lifetime, within the freshness limit and ends before the live tail; two of one epoch are apart and in order |
| Promises.StoredFitsLifetime | src/storage/sqlite/history/rollup.rs:36-42 | Known and usage-observed time that a bucket has materialised or queued fits the epoch's settled lifetime in that bucket |
| Promises.PruneInvisible | src/storage/sqlite/history/rollup.rs:58-105 | At the same or a later time, from the same source tier, pruning changes no range and no bucket statistics |
| Promises.DeletedTruthIsZero | src/storage/sqlite/history/rollup.rs:91-103 | A deleted epoch has no sample and no time in any bucket of an answer, then or later |
| PruneAnswers.AnswerAfterPrune | docs/history-maintenance.md:33-35 | An answer is unchanged by deletion if and only if the source tier is the same and every deleted epoch in range is shadowed: it has no configured time of its own, its series have epochs left, and one left began no later |
| PruneAnswers.AnswerUnchanged | docs/history-maintenance.md:33-35 | When the range begins in a day no earlier than the epoch cutoff the whole answer, refusals included, is unchanged |
| PruneAnswers.DeletedTimeShows | src/storage/sqlite/history/query.rs:195-228 | A deleted epoch in range that lasted and has a series always shows |
| Witnesses.PruningCanShow | src/storage/sqlite/history/rollup.rs:91-103 | A run of three transactions after which, from the same tier, a series has gone |
| Query.AnswerExists | src/storage/sqlite/history/query.rs:156-314 | Every request on every store has an answer |
| HistoryRuns.RunsKeepInv | src/storage/sqlite/history/mod.rs:7-9 | Every state of every interleaving of record, synchronise, rollup and prune keeps every invariant, every raw row is an accepted observation, and no deleted epoch has anything in a later answer |
| HistoryRuns.RunsChartTheTruth | docs/history-maintenance.md:28-42 | In every reachable store every bucket is, short of the samples at the edge, the truth over every epoch asked for that there ever was, its times are the integral of all observations ever accepted, and known time fits eligible time |
| HistoryRuns.ArchiveOnlyGrows | docs/history-maintenance.md:37-39 | No transaction takes an epoch or an accepted observation out of the archive |
| HistoryRuns.AcceptedIsArchived | docs/history-maintenance.md:29-32 | Every observation ever accepted is in the archive of every later state, as it was reported |
| Witnesses.SampleAtTheEdge | src/storage/sqlite/history/query.rs:188 | A run whose chart misses an accepted sample, and whose last store would take the same observation again |
| Retries.RetryCountsOnce | docs/history-maintenance.md:31-32 | Whatever came in between, storing an accepted observation again changes something if and only if the live epoch began at that very time and has taken nothing yet |
| Retries.RetryInSameEpoch | docs/history-maintenance.md:31-32 | While the epoch that took it stays live, storing it again changes nothing at all |
| Runner.CountedOnce | src/modules/runner.rs:32-53 | In every run of the jobs of all monitors, with lost and falsely failed writes, maintenance, and reloads and new processes that leave writes under way, once an attempt to store an observation has changed the history no later attempt to store it does |
| Runner.CountedForGood | src/modules/runner.rs:32-53 | And it stays in the archive as it was reported |
| Records.RecordKeeps | src/storage/sqlite/history/ingest.rs:126-139 | An accepted observation adds its raw row, and an event row exactly when it is the first or differs in more than latency |
| Records.PruneKeeps | src/storage/sqlite/history/rollup.rs:66-87 | Pruning deletes no raw row or event of a remaining epoch within its retention, usage samples having their own |
| Records.DeletedExpired | src/storage/sqlite/history/rollup.rs:91-103 | An epoch is deleted only when every observation and change accepted into it is past its retention |
| Records.RunsKeepRecords | docs/history-maintenance.md:29-32 | In every reachable store every archived observation within its retention has its raw row and every change its event, and there are no other rows |
| Records.AcceptedIsStored | docs/history-maintenance.md:29-32 | An accepted observation can be read back as it was reported until its retention is over |
| HistoryDb.Database.AddStats | src/storage/sqlite/history/mod.rs:42-63 | The bucket row is read, merged and written back; no other row changes |
| HistoryDb.Database.FlushTail | src/storage/sqlite/history/ingest.rs:88-105 | The time the last observation has held, up to its freshness limit, is appended to the queue |
| HistoryDb.Database.CloseEpoch | src/storage/sqlite/history/ingest.rs:83-87 | The tail is queued and the epoch ends, not before it started |
| HistoryDb.Database.Record | src/storage/sqlite/history/ingest.rs:106-149 | The tables become those of the accepted observation, or stay as they were |
| HistoryDb.Database.SyncEpochs | src/storage/sqlite/history/ingest.rs:3-82 | The loops over hosts, checks and live epochs perform the specified synchronisation; the live epochs are then exactly the checks the hosts have enabled, as configured |
| HistoryDb.Database.RollUp | src/storage/sqlite/history/rollup.rs:4-57 | The loop performs `work` iterations; fewer than the limit only when the queue is empty, and `more` exactly when it is not |
| HistoryDb.Database.PruneRows | src/storage/sqlite/history/rollup.rs:58-105 | Seven bounded deletions in order; `removed` counts them and `more` says whether the limit was reached, and if not nothing past its retention is left; deleted epochs are archived |
| QuerySetup.ChoosePlan | src/storage/sqlite/history/query.rs:172-194 | The loop over source tiers and the layout arithmetic give the specified plan |
| QuerySetup.OpenSeries | src/storage/sqlite/history/query.rs:195-228 | One series per label with the configured time of every selected epoch; refused exactly above sixteen series |
| HistoryQuery.ApplySpan | src/storage/sqlite/history/query.rs:71-93 | The cursor loop gives every bucket exactly the part of the stretch that falls in it |
| HistoryQuery.AddRows | src/storage/sqlite/history/query.rs:235-252 | Bucket rows read in any order keep the account; busy exactly above the row cap |
| HistoryQuery.AddSpans | src/storage/sqlite/history/query.rs:253-274 | Spans read in any order keep the account; busy exactly above the span cap |
| HistoryQuery.AddTails | src/storage/sqlite/history/query.rs:275-288 | Live tails keep the account |
| HistoryQuery.Answer | src/storage/sqlite/history/query.rs:156-314 | The whole request gives the specified answer, error cases included |
| UsageInv.UpdateKeepsInv | src/storage/sqlite/mod.rs:536-579 | A committed poll keeps the cache, the change log, the latest row and the coverage in step with the full log |
| UsageInv.PruneKeepsInv | src/storage/sqlite/mod.rs:217-231 | Whatever batch is deleted, the anchor stands in for it below the floor |
| UsageInv.ReloadKeepsCache | src/storage/sqlite/mod.rs:304-312 | The cache drops exactly the hosts whose latest row the identities drop |
| UsageInv.ReloadKeepsInv | src/storage/sqlite/mod.rs:268-314 | A successful reload keeps every invariant |
| UsageInv.RestartKeepsInv | src/storage/sqlite/mod.rs:156-192 | So does a restart with any valid catalogue |
| Inactivity.StateIsLastPoll | src/storage/sqlite/queries.rs:196-223 | The stored row found at the cutoff reports what the last poll at or before it reported |
| Inactivity.BreaksAreLaterPolls | src/storage/sqlite/queries.rs:225-248 | A stored row breaks inactivity exactly when some poll after the cutoff does |
| Inactivity.VerdictIsExact | src/domain/filters.rs:138-175 | Under coverage and floor, the verdict from the compressed, pruned log is the verdict over every poll |
| Inactivity.FilterIsExact | src/storage/sqlite/queries.rs:106-173 | The whole decision, status, guards and windows, is what the filter means: usage enabled, the last poll no older than two intervals and a timeout, coverage and floor no later than the start of each window, nobody there since |
| UsageRuns.VerdictOverRuns | src/storage/sqlite/queries.rs:106-173 | The same in every reachable state |
| UsageTables.PollIsKept | src/storage/sqlite/mod.rs:536-579 | A poll is logged exactly when it says something else than the latest one; coverage goes on exactly when the poll before is at most two intervals and a timeout older |
| UsageTables.ReloadKeepsExactly | src/storage/sqlite/maintenance.rs:54-97 | A reload keeps the latest poll of exactly the hosts that stay at their address, the coverage of those with usage enabled before and after, and exactly the TCP rows of checks still listed |
| UsageTables.PruneLeaves | src/storage/sqlite/mod.rs:217-231 | Pruning deletes only rows behind a later one before the cutoff or of hosts without a latest poll; a batch that is not full leaves one such row a host at most |
| UsageTables.TrailIsRun | src/storage/sqlite/mod.rs:519-582 | The polls the verdict is measured against are exactly those the run committed |
| UsageTables.RowsAreKnown | src/storage/sqlite/maintenance.rs:14-97 | In every reachable state the latest row is the last committed poll since a reload moved or removed the host, and the coverage row dates from the last gap or disturbance |
| UsageTables.FloorIsLargest | src/storage/sqlite/mod.rs:217-231 | The floor is the largest cutoff ever pruned with |
| UsageTables.GenerationCounts | src/storage/sqlite/mod.rs:304 | The generation counts the successful reloads of the process |
| UsageTables.WriteEnds | src/storage/sqlite/tcp.rs:17-36 | How a TCP write ends: unknown host, check absent or disabled, turned away, or done |
| UsageTables.TcpRowsFollow | src/storage/sqlite/tcp.rs:11-55 | At every step of every run a committed TCP result becomes its check's row, and any other row stays until a reload no longer lists its check there |
| UsageRuns.CacheIsTable | src/storage/sqlite/mod.rs:304-312 | In every reachable state the change-detection cache is the latest-usage table, fenced writers or not |
| UsageRuns.CoverageSpansRun | src/storage/sqlite/maintenance.rs:14-44 | A coverage row spans polls with allowed gaps since one poll, with no address change, removal or disabling since |
| UsageRuns.CommitIsCurrent | src/storage/sqlite/mod.rs:333-354 | In every run, a fenced write that is not turned away used the catalogue in force at its commit |
| UsageRuns.ReloadFencesWriters | src/storage/sqlite/mod.rs:304 | Within one process a successful reload turns away for good every write fenced before it |
| UsageRuns.WriteKeepsConfigured | src/storage/sqlite/tcp.rs:11-40 | A TCP write keeps the rows configured if and only if it is turned away or its target is still there |
| UsageRuns.FencedRowsConfigured | src/storage/sqlite/tcp.rs:43-55 | With fenced writers every stored TCP row always matches an enabled configured host, check, address and port |
| UsageRuns.UnfencedWriteMismatches | src/storage/sqlite/mod.rs:195-204 | Without the fence a run exists that stores a row for a port no longer configured |
| UsageDb.Registry.UpdateUsage | src/storage/sqlite/mod.rs:519-582 | Outcome, change row, history record and new state of a poll, turned away or committed |
| UsageDb.Registry.UpdateTcp | src/storage/sqlite/tcp.rs:11-40 | Outcome, history record and new state of a TCP result |
| UsageDb.Registry.UpdateCoverage | src/storage/sqlite/maintenance.rs:14-44 | The coverage row is continued or restarted |
| UsageDb.Registry.PruneHistory | src/storage/sqlite/mod.rs:217-231 | A bounded batch of prunable rows goes and the floor rises, never falls |
| UsageDb.Registry.SyncIdentities | src/storage/sqlite/maintenance.rs:54-97 | The loop over hosts and the final deletions drop exactly what the new catalogue does not stand behind |
| UsageDb.Registry.ReplaceConfiguration | src/storage/sqlite/mod.rs:268-314 | A reload succeeds as a whole, or changes nothing, the generation included |
| UsageDb.Registry.Restart | src/storage/sqlite/mod.rs:156-192 | The cache is read back from the synchronised table |
| UsageDb.Registry.MatchesUsageFilter | src/storage/sqlite/queries.rs:106-173 | Matches exactly when, of every poll, the configuration, the coverage row and the floor, the filter holds |
| Scheduler.AtMostOneRunning | src/storage/sqlite/jobs.rs:64-111 | In every reachable state, crashes and lost completions included, at most one row is running |
| Scheduler.ClaimedAfterFive | src/storage/sqlite/jobs.rs:79 | Without a restart in between, a due job is claimed after at most five claims of other jobs |
| Scheduler.SomethingIsClaimed | src/storage/sqlite/jobs.rs:69-87 | While a job is due, a claim with the permit free claims some job |
| Scheduler.BackoffBounds | src/storage/sqlite/jobs.rs:100-101 | Retry delays grow with failures from 5 to 2560 seconds; the one-hour cap is never reached |
| Scheduler.RowsTellTheRun | src/storage/sqlite/jobs.rs:56-111 | In every reachable state a row tells how often its job failed since it last succeeded, lost completions included, how it ended, and when it was started and succeeded last |
| Scheduler.EarliestIsClaimed | src/storage/sqlite/jobs.rs:79-80 | The job claimed is due before any other, among those due at the same time the first by id |
| Scheduler.StepSchedules | src/storage/sqlite/jobs.rs:19-111 | When a job is due next after every step, from the configured intervals and the failures the run has seen, figures written out |
| SchedulerDb.Maintenance.RegisterJobs | src/storage/sqlite/jobs.rs:19-28 | Missing jobs are inserted, the others only brought forward |
| SchedulerDb.Maintenance.RecoverMaintenance | src/storage/sqlite/jobs.rs:56-62 | Interrupted claims become due at once |
| SchedulerDb.Maintenance.ClaimDue | src/storage/sqlite/jobs.rs:65-90 | A stale claim is released and the earliest due job, ties by id, is claimed |
| SchedulerDb.Maintenance.CompleteJob | src/storage/sqlite/jobs.rs:94-111 | The outcome is stored, or not, and the permit given back |
| Icmp.TransitionsAreThresholds | src/modules/icmp/monitor.rs:137-197 | A transition is recorded exactly when enough checks in a row had the same new result |
| Icmp.StateIsLastCheck | src/modules/icmp/monitor.rs:137-230 | The state tells the time, reply and error of the last check and when the status changed last; each transition those of the check that made it |
| Icmp.ReplayIsChain | src/modules/icmp/monitor.rs:199-230 | Each previous status is the last new one, no change is to the same status, times increase |
| IcmpStore.LaterCommit | src/storage/sqlite/queries.rs:579-605 | Committing the same observation again changes nothing, but puts back its transition if that was deleted in between |
| IcmpStore.StoredChain | src/modules/runner.rs:33-53 | Under any pattern of failed and falsely failed writes, reloads with writes under way, restarts and deletions, the transitions ever stored are those of the stored checks, each once, in an unbroken chain; the table holds exactly them, none twice, short of some older than a deletion's cutoff |
| IcmpStore.ChecksAreStored | src/storage/sqlite/maintenance.rs:54-97 | The checks that chain replays are those the run has stored, each at its first admitted attempt, since the host last got another address; no transition ever stored is forgotten |
| IcmpStore.FloorIsCutoff | src/storage/sqlite/mod.rs:225 | A transition can only be missing when some deletion used a later cutoff |
| IcmpStore.ReportedIsStored | src/modules/runner.rs:42-52 | A check whose storing was reported successful is the last one stored |
| IcmpDb.HostState.CheckOnce | src/modules/icmp/monitor.rs:137-197 | The counters, status and timestamps updated in place, and the transition returned |
| IcmpDb.StatusTables.UpdateCheckResult | src/storage/sqlite/mod.rs:467-503 | A write for an unknown host or a stale one changes nothing; else the latest status is replaced, the sample recorded and the transition inserted unless it is there |
| IcmpDb.StatusTables.StoreWithRetries | src/modules/runner.rs:42-52 | Retrying ends at the first acknowledged or stale attempt; status and transition are those of one write, or none |
| IcmpDb.WrittenOnce | src/modules/runner.rs:42-52 | However many attempts committed, the history is as after one write by one of them, or as before |
| IcmpDb.StatusTables.DeleteOld | src/storage/sqlite/mod.rs:225 | A bounded batch of old transitions goes, whichever; fewer than the limit only when none is left |
| IcmpHistory.StoredAndCountedOnce | src/storage/sqlite/mod.rs:467-503 | With the host's tables and the history in one run, reloads with writes under way included, once an attempt to store a check has changed the history no later attempt to store that check changes the history or the status tables, but puts back its transition if that was deleted |

## Left out

- Promises.PruneInvisible: fixes the source tier, because the work estimate at src/storage/sqlite/history/query.rs:180-185 depends on how many epochs there are; `PruneAnswers.AnswerAfterPrune` does not.
- PruneAnswers.AnswerAfterPrune: is about requests answered before the deletion; of refused ones only `PruneAnswers.AnswerUnchanged` speaks.
- Scope.BoundsAre: counts characters of a name where the program counts bytes of its UTF-8 form.
- Query.ChartIsIntegral: states durations; `Truth.ChartIsTruth` states every column.
- HistoryRuns.RunsKeepInv: assumes clock readings that do not go back and one valid retention configuration throughout; lengthening a retention later cannot bring back finer buckets already skipped.
- Records.RunsKeepRecords: assumes one retention of usage samples throughout.
- UsageRuns.VerdictOverRuns: assumes each host's poll times do not decrease, and reads the catalogue and the tables at one moment; a reader holding an older catalogue is not modelled.
- UsageDb.Registry.UpdateUsage: does not model the `usage_samples` row of the same transaction, which nothing in this model reads.
- UsageDb.Registry.PruneHistory: does not model the deletion of `usage_samples` rows in the same transaction; that of old transitions is `IcmpDb.StatusTables.DeleteOld`.
- UsageDb.Registry.SyncIdentities: does not model the latest status rows of the ICMP monitor (`IcmpStore.Replaced`) nor the epochs (`HistoryDb.Database.SyncEpochs`), which the same transaction brings in line.
- UsageDb.Registry.ReplaceConfiguration: the registration of jobs (`SchedulerDb.Maintenance.RegisterJobs`) is only a success flag here, and the retention policies it replaces are not modelled.
- SchedulerDb.Maintenance.CompleteJob: does not model the run record, its duration and its work count, which nothing else reads.
- IcmpDb.StatusTables.StoreWithRetries: nothing else writes between its attempts; `IcmpHistory.StoredAndCountedOnce` and `Runner.CountedOnce` cover what happens beside them.
- IcmpStore.StoredChain: assumes that the checks of one host, whichever job makes them, have strictly increasing times.
- HistoryStats.MergeAssociates: sums are exact (`real` and unbounded integers); floating-point rounding and 64-bit overflow are not modelled, nor are saturating time arithmetic and non-finite latencies.
- In-place merging: records of statistics are values, so `merge` is modelled as replacing a value, not as updating a shared one.
- One host at a time for ICMP: transitions carry neither the host id nor the name of the ping back end.
- Labels of series: the display name comes from whichever epoch is read first, so only the series ids are modelled.
- The event and raw-sample listings of src/storage/sqlite/history/query.rs:107-154: one filtered, paged read.
- SQLite itself: transactions are atomic and rows are stored and read back faithfully; schema migration, pools, file locks, vacuum, checkpoints and JSON encoding are not part of this model.
- Text timestamps: times are integers and text order is taken to be time order.
- The network and process back ends, jitter, sleeps, task scheduling, logging and metrics: a check result is an arbitrary input.
- Configuration parsing, HTTP routes, filters on metadata and groups, and authentication: they would only add easy members.
