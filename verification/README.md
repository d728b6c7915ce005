# Verified models of the dust-inspection platform

The platform takes camera frames and dust measurements from autonomous robots (AMRs),
pairs them, sends each waypoint's frames to an analysis service, judges the result,
delivers the judgement to the customer's LOAS database, and shows box-plot candles of
every station's measurements in a web application. This project models the parts in
which state, time and failure meet, and proves what they keep.

| component | modules |
|---|---|
| candle cache of one station | `Calendar`, `Buckets`, `BoxStats`, `Samples`, `CandleStore`, `Freezer`, `Backfill`, `StationMachine`, `CacheInvariant`, `CacheSafety`, `CacheProgress`, `CacheLive`, `FreezeTiming`, `CacheLimit`, `CacheRetry`, `ColdRestart`, `ColdStart`, `Polling` |
| waypoint-batch consumer | `TransferQueue`, `DecisionProducer`, `TransferMachine`, `TransferPass`, `TransferPolling` |
| egress outbox | `EgressMachine`, `EgressSending` |
| station reconciler and conflict resolution | `StationNames`, `Reconciler` |
| LOAS framing | `DustFraming`, `DustServer`, `CctvFraming`, `CctvServer` |
| frame and video purge | `Purge` |
| frame pairing | `Correlator` |
| event fan-out | `Broadcast` |
| video upload | `VideoAssembly` |

`dafny verify dfyconfig.toml` checks everything.

How the models are built:

- Database tables, Redis keys, files and byte streams are maps, sets and sequences.
  Everything another process or machine decides - clock readings, REST answers, failing
  commands, rows that appear or disappear - is a nondeterministic choice or a parameter.
- Each protocol is a state machine whose actions are single commands, so that a crash or
  an exception can fall between any two. Theorems are about all its runs.
- Each program that changes state step by step is a class with the same fields and
  loops. In `Polling`, `TransferPolling` and `EgressSending` the methods return, as ghost
  results, the actions they performed, and are proved to perform a run of the machine, so
  that the theorems about runs hold for the program. The other classes are proved against
  the functions and relations the theorems are about; `Reconciler.PassIsRun` ties a turn
  of the reconcile pass to the machine.
- A command that raises may have taken effect or not, and both are covered.

Where a promise does not hold of the code as it stands, the code is modelled as it is:

- A tick of the candle poller that is retried in the same process after one of its
  freezes can leave a bucket both live and frozen. `CacheRetry` gives the exact condition
  and a run; the cache theorems exclude such retries.
- After a crash, a restart with a smaller batch limit can leave live values beyond the
  cursor when a tick is done. `CacheLimit` gives a run, and says exactly which limits are
  harmless, given Redis and the sample table before the restart.
- A station can be started on another one's data if a stop fails to write its marker, or
  if a resolve request writes the marker late: after the conflict it was opened for is
  gone and while no task is registered. `StationNames` proves that no start goes wrong
  otherwise, gives a run for a lost marker, for a late wipe and for a late carry-over -
  in the last one the data is in plain sight of the remnant probe - and says exactly
  which idle states are safe: those in which the marker is right or, without a marker,
  no data is hidden from the probe. If markers are merely lost, a marker is always right,
  and the condition is that there is one or no hidden data.
- A conflict that is cleared after the station's turn in a reconcile pass leaves it
  neither running nor in conflict until the next pass; `Reconciler` proves that it is in
  that state exactly then.
- Samples whose times decrease in id order can put a bucket that is frozen back into the
  live set; `CacheRetry.LateSample` says exactly when.
- The LOAS table has no key against duplicates. `EgressMachine` proves the bound and that
  it is reached.
- A little-endian CCTV length is misread in the cases `CctvFraming.ByteOrderDomain` names.

Where code and documentation differ, the code is modelled:
`PoolerTran/docs/waypoint_transition_batch.md` says a waypoint with more frames than a
batch is sent in several calls, and `PoolerTran/src/poolertran/poller.py:300` says failed
rows are retried; the code sends one call, discards the rest, and does not come back to a
failed batch on the next poll because the last waypoint has advanced. The overflow that
is discarded also takes rows of the batch that merely failed, if another row of it was
dead-lettered. The docstring of `emergency_purge`
(`SocketDaim/cleaner/cleanup.py:142`) speaks of videos; it removes camera frames.

## Model

| member | source | states |
|---|---|---|
| CacheSafety.CacheRefinesTable | Dumopro_Data_Analysis_WebApp/apps/poller/station_task.py:122-215 | over every run from an empty store - arrivals in id order with times not decreasing, cold and warm starts, ticks with any clock readings, crashes between any two Redis commands, exceptions whose retry is safe - every frozen candle is the candle of all the bucket's samples and indexed at the bucket's start, live and frozen buckets are apart, live sets hold only their bucket's samples, and every sample up to the cursor is live or frozen in all four units |
| CacheProgress.ExactAfterTick | Dumopro_Data_Analysis_WebApp/apps/poller/station_task.py:93-161 | after any crashes and safe exceptions, from the moment a tick has moved the cursor until the next batch is fetched, every bucket that is not frozen holds exactly its samples up to the cursor, as long as each restart's batch limit reaches, from the cursor on, every row that has a live value |
| CacheProgress.SteadyIfNotLowered | Dumopro_Data_Analysis_WebApp/apps/poller/station_task.py:73-91 | after such a run a restart that does not lower the limit reaches that far |
| CacheLive.LiveCandles | Dumopro_Data_Analysis_WebApp/apps/poller/station_task.py:146-186 | after any such run, once a tick has recomputed what was marked, every bucket of a sample of its batch, in all four units, has a live candle: that of all the bucket's samples up to the cursor, with the time of the batch's last sample |
| CacheLive.FrozenCandle | Dumopro_Data_Analysis_WebApp/apps/poller/station_task.py:188-207 | after any safe run a freeze stores the candle of all the bucket's samples, without a time, takes the bucket's live keys away and touches no key of any other bucket |
| CacheLive.BatchFetched | Dumopro_Data_Analysis_WebApp/apps/poller/station_task.py:122-131 | a tick reads the rows after its id, as many as its limit allows; without any it goes on to the freezes |
| FreezeTiming.GraceKept | Dumopro_Data_Analysis_WebApp/apps/poller/station_task.py:188-208 | over any run, whatever its clocks say: a tick freezes or forgets only a bucket of which it was noted that it was left, at a moment that lies a grace period before the tick's clock or longer; and when the tick ends no day, week or month bucket whose time has come is waiting |
| FreezeTiming.LeftIsWaiting | Dumopro_Data_Analysis_WebApp/apps/poller/station_task.py:118-144 | after any safe run, with crashes, warm and cold restarts and exceptions: when a tick has filed its batch, the bucket that the rows of the batch left last is waiting in every unit; also if it was left between the row before the batch and its first row, unless there were exceptions |
| CacheLimit.RestartDomain | Dumopro_Data_Analysis_WebApp/apps/poller/station_task.py:122-161 | exactly which batch limits a restart may have: after any safe run that has a cursor, live sets stay exact whenever a tick has moved the cursor, with nothing but arrivals and ticks to follow, if and only if no row with a live value is further beyond the cursor than the limit |
| CacheLimit.LoweredLimitBreaks | Dumopro_Data_Analysis_WebApp/apps/poller/station_task.py:122-161 | for any three samples there is a run without exceptions - a crash before the cursor write and a restart with a smaller batch limit - in which a tick moves the cursor and live sets are not exact |
| CacheSafety.ExactWhenCaughtUp | Dumopro_Data_Analysis_WebApp/apps/poller/station_task.py:122-161 | live sets are exact whenever the cursor has passed everything any tick or cold start of the run began to write |
| ColdRestart.ColdStartRestartable | Dumopro_Data_Analysis_WebApp/apps/poller/backfill.py:20-103 | whatever earlier interrupted cold starts over shorter histories, or ticks before the first cursor, left behind, a complete cold start leaves exactly the keys and values it leaves on an empty Redis, and these are determined by the table alone |
| ColdRestart.CompleteDetermined | Dumopro_Data_Analysis_WebApp/apps/poller/backfill.py:50-98 | after all writes of a cold start: live buckets are exactly those of the last sample with exactly their samples and candles, frozen ones exactly those passed, with their candle and index score, and the cursor is at the last sample |
| ColdRestart.DeterminedUnique | Dumopro_Data_Analysis_WebApp/apps/poller/backfill.py:50-98 | only one store fits that description |
| CacheRetry.RetryDomain | Dumopro_Data_Analysis_WebApp/apps/poller/station_task.py:93-111 | after an exception among the freezes the process fetches again from its old id: filing that batch leaves live and frozen buckets apart if and only if no row after the old id lies in a frozen bucket |
| CacheRetry.FilingApart | Dumopro_Data_Analysis_WebApp/apps/poller/station_task.py:131-144 | filing a batch keeps live and frozen buckets apart if and only if none of its samples lies in a frozen bucket |
| CacheRetry.LateSample | Dumopro_Data_Analysis_WebApp/apps/poller/station_task.py:131-144 | so a sample that arrives out of order keeps live and frozen buckets apart if and only if its bucket is not frozen in any unit |
| CacheRetry.RetryCanBreak | Dumopro_Data_Analysis_WebApp/apps/poller/station_task.py:93-111 | for any two samples of different days there is a run in which a tick fails right after a freeze, is retried, and leaves the first day both live and frozen |
| CacheRetry.RetryBreaks | Dumopro_Data_Analysis_WebApp/apps/poller/station_task.py:93-111 | hence, with two concrete samples, the cache does not always survive a retried tick |
| CacheSafety.StepKeeps | Dumopro_Data_Analysis_WebApp/apps/poller/station_task.py:52-215 | every single action - one Redis command, one decision of the process, an arrival, an exception with a safe retry, a crash - keeps the cache invariant |
| CacheSafety.RunKeeps | Dumopro_Data_Analysis_WebApp/apps/poller/station_task.py:52-215 | and so does every run of such actions |
| CacheSafety.WriteFrozenKeeps | Dumopro_Data_Analysis_WebApp/apps/poller/station_task.py:188-207 | the candle a tick freezes is the candle of all the bucket's samples, because the bucket has been passed and all its samples are live |
| CacheSafety.MoveCursorKeeps | Dumopro_Data_Analysis_WebApp/apps/poller/station_task.py:146-151 | when the cursor moves every sample of the batch has been filed in all four units, and every bucket still pending has been passed |
| CacheSafety.FileSampleKeeps | Dumopro_Data_Analysis_WebApp/apps/poller/station_task.py:132-144 | adding a sample to its live set touches no frozen bucket and advances the filing loop |
| CacheSafety.NoteBoundaryKeeps | Dumopro_Data_Analysis_WebApp/apps/poller/station_task.py:134-139 | noting a boundary schedules only a bucket already seen, never the one last seen |
| CacheSafety.RecomputeKeeps | Dumopro_Data_Analysis_WebApp/apps/poller/station_task.py:163-175 | recomputing a dirty bucket changes at most its live candle, and only of a bucket that is not frozen |
| CacheSafety.BackfillWriteKeeps | Dumopro_Data_Analysis_WebApp/apps/poller/backfill.py:56-98 | each write of a cold start keeps the store sound and undoes no earlier write of the same cold start |
| CacheInvariant.PassedForGood | Dumopro_Data_Analysis_WebApp/apps/poller/station_task.py:132-139 | with times not decreasing in id order, no later sample ever falls into a bucket that has been left |
| CacheInvariant.PassedValues | Dumopro_Data_Analysis_WebApp/apps/poller/station_task.py:193-198 | so the values of such a bucket are settled |
| CacheInvariant.LiveIsLast | Dumopro_Data_Analysis_WebApp/apps/poller/backfill.py:50-55 | the last key in string order is the bucket of the last sample, and the only one kept live |
| CacheInvariant.ColdProper | Dumopro_Data_Analysis_WebApp/apps/poller/backfill.py:50-98 | a cold start freezes only buckets that have been left, fills only the last sample's buckets, and writes the cursor last and once |
| CacheInvariant.ColdAccounts | Dumopro_Data_Analysis_WebApp/apps/poller/backfill.py:50-98 | and it accounts for every sample in every unit |
| CacheProgress.StepReach | Dumopro_Data_Analysis_WebApp/apps/poller/station_task.py:122-161 | what has been filed beyond the cursor stays within reach of the next batch, through crashes, restarts whose limit reaches it, and retries |
| Polling.StationTask.Tick | Dumopro_Data_Analysis_WebApp/apps/poller/station_task.py:122-161 | a tick, with each database or Redis command able to raise before or after it took effect, performs a run of the state machine that ends in a completed tick, or in an exception that leaves the id as it was |
| Polling.StationTask.FileSamples | Dumopro_Data_Analysis_WebApp/apps/poller/station_task.py:131-144 | the nested loops over samples and units perform exactly the filing actions, in order, up to the end or up to the exception |
| Polling.StationTask.FileOne | Dumopro_Data_Analysis_WebApp/apps/poller/station_task.py:133-144 | one unit of one sample: boundary, live value and dirty mark |
| Polling.StationTask.RecomputeDirty | Dumopro_Data_Analysis_WebApp/apps/poller/station_task.py:163-186 | the loop takes every dirty bucket and stores its live candle if it has values; if it ends, nothing is dirty, and every bucket that was has the candle of its live values with the batch's time |
| Polling.StationTask.ProcessFreezes | Dumopro_Data_Analysis_WebApp/apps/poller/station_task.py:188-221 | the loop freezes each due bucket that has live values and forgets it, or forgets it if it has none |
| Polling.StationTask.SeedLastBuckets | Dumopro_Data_Analysis_WebApp/apps/poller/station_task.py:118-120 | the last-seen keys become the sample's keys in all four units |
| Polling.StationTask.Start | Dumopro_Data_Analysis_WebApp/apps/poller/station_task.py:52-91 | a cold start if there is no cursor, a warm one otherwise, as a run of the state machine |
| Polling.StationTask.Run | Dumopro_Data_Analysis_WebApp/apps/poller/station_task.py:52-116 | the whole life of a task is a run: a start and then completed or failed ticks, one per round, cut short if and only if as many as the cap have failed in a row |
| Polling.ProgramAgrees | Dumopro_Data_Analysis_WebApp/apps/poller/station_task.py:52-215 | so after any history of runs, crashes and restarts the program leaves a cache that agrees with the sample table, as long as every exception was retried safely |
| ColdStart.ColdStart | Dumopro_Data_Analysis_WebApp/apps/poller/backfill.py:20-103 | the program pages through the table, buffers, and performs the cold start's writes in order; if a command raises, exactly a prefix of them has taken effect |
| ColdStart.FillBuffers | Dumopro_Data_Analysis_WebApp/apps/poller/backfill.py:35-48 | after the loops each unit's buffer has exactly the keys of the samples, and under each key the bucket's samples in id order |
| ColdStart.WriteUnit | Dumopro_Data_Analysis_WebApp/apps/poller/backfill.py:56-84 | one unit's freezes in key order, then the live values, then the live candle |
| ColdStart.Database.FetchSamplesSince | Dumopro_Data_Analysis_WebApp/libs/dumopro_core/db.py:63-89 | a query sees the table as it is then: the first rows after the id, up to the limit |
| ColdStart.Database.AllSamples | Dumopro_Data_Analysis_WebApp/libs/dumopro_core/db.py:120-154 | paging yields the whole table as the last page saw it |
| Samples.IterAllSamples | Dumopro_Data_Analysis_WebApp/libs/dumopro_core/db.py:120-154 | paging a growing table with any chunk size yields every row exactly once in id order |
| Samples.FetchIsSlice | Dumopro_Data_Analysis_WebApp/libs/dumopro_core/db.py:63-89 | a fetch returns the consecutive rows after those with ids up to the given one |
| Samples.Consecutive | Dumopro_Data_Analysis_WebApp/libs/dumopro_core/buckets.py:35-44 | each bucket's samples are consecutive in the table |
| Samples.KeysInTableOrder | Dumopro_Data_Analysis_WebApp/libs/dumopro_core/buckets.py:35-44 | bucket keys compare as strings the way their samples lie in the table |
| CandleStore.ListingExact | Dumopro_Data_Analysis_WebApp/libs/dumopro_core/redis_client.py:61-67 | an exact live set read back lists the bucket's values |
| CandleStore.RedisClient.Freeze | Dumopro_Data_Analysis_WebApp/libs/dumopro_core/redis_client.py:82-96 | one transaction: frozen candle and index entry written, live values and live candle gone; or nothing, if it raises |
| CandleStore.RedisClient.AddLive | Dumopro_Data_Analysis_WebApp/libs/dumopro_core/redis_client.py:51-59 | the value is stored under the sample id in the bucket's live set and nothing else changes |
| CandleStore.RedisClient.SetStats | Dumopro_Data_Analysis_WebApp/libs/dumopro_core/redis_client.py:69-72 | the live candle is replaced |
| CandleStore.RedisClient.SetCursorTo | Dumopro_Data_Analysis_WebApp/libs/dumopro_core/redis_client.py:34-47 | the cursor becomes the id and time given |
| CandleStore.RedisClient.GetCursor | Dumopro_Data_Analysis_WebApp/libs/dumopro_core/redis_client.py:29-32 | the stored cursor, or id 0 without a time |
| CandleStore.RedisClient.GetLiveRawValues | Dumopro_Data_Analysis_WebApp/libs/dumopro_core/redis_client.py:61-67 | the live values in score order |
| Freezer.GraceFreezer.Schedule | Dumopro_Data_Analysis_WebApp/apps/poller/freezer.py:33-36 | a bucket already waiting keeps its deadline; another bucket of the unit is overwritten |
| Freezer.GraceFreezer.DueNow | Dumopro_Data_Analysis_WebApp/apps/poller/freezer.py:38-45 | the loop lists exactly the waiting buckets of day, week and month whose time has come, never an hour bucket |
| Freezer.GraceFreezer.Drop | Dumopro_Data_Analysis_WebApp/apps/poller/freezer.py:47-50 | that very bucket does not wait any more, and all others as before |
| Freezer.DueIs | Dumopro_Data_Analysis_WebApp/apps/poller/freezer.py:38-45 | a bucket is due if and only if it waits, is no hour bucket, and its time is not after the clock |
| Buckets.KeyMatchesScore | Dumopro_Data_Analysis_WebApp/libs/dumopro_core/buckets.py:14-70 | within a unit two instants have equal keys if and only if they have equal scores |
| Buckets.KeysFollowTime | Dumopro_Data_Analysis_WebApp/libs/dumopro_core/buckets.py:14-44 | later instants never get a smaller key as strings compare |
| Buckets.ScoreMonotone | Dumopro_Data_Analysis_WebApp/libs/dumopro_core/buckets.py:56-70 | scores never decrease with time |
| Buckets.KeyReads | Dumopro_Data_Analysis_WebApp/libs/dumopro_core/buckets.py:14-44 | each key character by character: the digits of the UTC year, month, day and hour, or of the ISO year and week, and the marks between them |
| Buckets.ScoreInNumbers | Dumopro_Data_Analysis_WebApp/libs/dumopro_core/buckets.py:56-70 | each score in epoch seconds: rounded down to the hour or the day, or back to the Monday or the first of the month |
| Buckets.InferRoundTrip | Dumopro_Data_Analysis_WebApp/apps/poller/backfill.py:106-120 | the time inferred from a key lies in the bucket: it has the same key and the same score, and is the bucket's start |
| Buckets.IsoWeekMonday | Dumopro_Data_Analysis_WebApp/libs/dumopro_core/buckets.py:24-27 | the Monday of the ISO week of a date is found back from year and week number |
| Buckets.IsoWeekOrder | Dumopro_Data_Analysis_WebApp/libs/dumopro_core/buckets.py:24-27 | ISO year and week follow the date |
| Calendar.WeekDateRule | Dumopro_Data_Analysis_WebApp/libs/dumopro_core/buckets.py:24-27 | the week-date rule of section 4.1.4 of ISO 8601:2004: a week belongs to the year that has its Thursday, and its number counts the Thursdays up to it |
| Calendar.OrdinalOrder | Dumopro_Data_Analysis_WebApp/libs/dumopro_core/buckets.py:8-44 | dates and day numbers are ordered alike |
| Calendar.DatesByMonth | Dumopro_Data_Analysis_WebApp/libs/dumopro_core/buckets.py:14-44 | which dates there are, month by month, with the leap years |
| Calendar.OrdinalClosed | Dumopro_Data_Analysis_WebApp/libs/dumopro_core/buckets.py:56-70 | the number of a date in closed form, without a table of months |
| Calendar.EpochIs1970 | Dumopro_Data_Analysis_WebApp/libs/dumopro_core/buckets.py:56-70 | 1970-01-01 is second 0, and every time is counted from there in days of 24 hours |
| Calendar.WeekInNumbers | Dumopro_Data_Analysis_WebApp/libs/dumopro_core/buckets.py:24-27 | ISO year, week and weekday from the days since 1970: the year the week's Thursday lies in, and the number of that year's Thursdays up to it |
| Calendar.FromOrdinal | Dumopro_Data_Analysis_WebApp/apps/poller/backfill.py:113-118 | a day number is turned into its only valid date |
| Calendar.IsoYear | Dumopro_Data_Analysis_WebApp/libs/dumopro_core/buckets.py:24-27 | the ISO year is the one whose first Monday is the last not after the day |
| BoxStats.BoxShape | Dumopro_Data_Analysis_WebApp/libs/dumopro_core/candles.py:8-48 | extreme and normal fences, quartiles and median are in order; the whiskers are the smallest and largest values between the fences, which always exist |
| BoxStats.BoxInNumbers | Dumopro_Data_Analysis_WebApp/libs/dumopro_core/candles.py:15-23 | median and quartiles read off any sorted arrangement, the quartiles a quarter and three quarters of the way along, with linear interpolation; the fences 1.5 and 3 times their distance beyond them |
| BoxStats.QuartilesMirror | Dumopro_Data_Analysis_WebApp/libs/dumopro_core/candles.py:15-16 | the lower quartile of the negated values is minus the upper one |
| BoxStats.OutliersInNumbers | Dumopro_Data_Analysis_WebApp/libs/dumopro_core/candles.py:29-32 | how often each value is among the outliers and among the extremes |
| BoxStats.SomeValueInFence | Dumopro_Data_Analysis_WebApp/libs/dumopro_core/candles.py:20-34 | some value lies between the fences for every nonempty list, so the whisker fallback is unreachable |
| BoxStats.BoxPartition | Dumopro_Data_Analysis_WebApp/libs/dumopro_core/candles.py:26-40 | every value is exactly one of in fence, outlier, extreme |
| BoxStats.BoxOfPermutation | Dumopro_Data_Analysis_WebApp/libs/dumopro_core/candles.py:8-48 | the candle depends only on the multiset of values, up to the order in which outliers are listed |
| BoxStats.SortedUnique | Dumopro_Data_Analysis_WebApp/libs/dumopro_core/candles.py:12-18 | there is one sorted arrangement of a multiset |
| BoxStats.InterpolateMonotone | Dumopro_Data_Analysis_WebApp/libs/dumopro_core/candles.py:12-18 | linear interpolation in a sorted array is monotone in the position |
| BoxStats.ComputeBoxStats | Dumopro_Data_Analysis_WebApp/libs/dumopro_core/candles.py:8-11 | there is no candle exactly for the empty list |
| TransferMachine.OneFate | PoolerTran/src/poolertran/poller.py:261-477 | over all runs of arrivals, polls, sweeps, gateway exceptions and crashes: each time a frame entered the queue it is still there or left for exactly one committed cause; a processed frame was in its batch, the oldest rows of the place, whose representative's dust id has a decision; a dead-lettered one is in the dead letters and had used up its attempts; a discarded one was at the place of a full batch, not among the rows cleared, and some row of that batch had been processed or dead-lettered; a swept one had entered longer ago than the limit; no dust id has two decisions and none is changed or removed; queued attempts exceed the maximum at most by the dead-letter writes that raised |
| TransferMachine.RecordsRight | PoolerTran/src/poolertran/poller.py:391-426 | every decision a run adds belongs to a batch of that run: anomaly is abnormal if and only if the fixed score and its threshold are present and the score is larger, object the same with the moving score, sensor if and only if some row of the batch is above the dust threshold; place, dust id and time are the batch's |
| TransferMachine.StepKeeps | PoolerTran/src/poolertran/poller.py:261-477 | each step keeps that, with the gateway side visible at commit only and the decision side at once |
| TransferMachine.CommitKeeps | PoolerTran/src/poolertran/poller.py:296-343 | a commit removes what was processed, dead-lettered or discarded, and counts an attempt on the rest of the batch |
| TransferMachine.UnseenKeeps | PoolerTran/src/poolertran/poller.py:302-343 | so does a commit that raises after it took effect, after which the poll ends and the waypoint is not noted |
| TransferMachine.CommitCauses | PoolerTran/src/poolertran/poller.py:364-477 | at a commit each cleared row has its justified cause, and once these are logged each discarded row has its own: its place, the full batch, and the rows of it that were cleared |
| TransferMachine.InsertKeeps | PoolerTran/src/poolertran/repository/decision_producer.py:59-84 | the decision insert adds at most one row, for the representative's dust id |
| TransferMachine.FailRowKeeps | PoolerTran/src/poolertran/poller.py:443-477 | one failed row: dead-lettered with its number of attempts if exhausted and the write succeeds, counted otherwise |
| TransferMachine.EnqueueKeeps | PoolerTran/migrations/migrate_010_cctv_transfer_queue.sql:61-92 | a frame enters the queue if and only if it is not in it and its measurement has a waypoint, with no attempts yet |
| TransferMachine.SweepKeeps | PoolerTran/src/poolertran/poller.py:245-257 | a sweep removes exactly the rows enqueued longer ago than the limit |
| TransferMachine.RestartKeeps | PoolerTran/src/poolertran/main.py:48-54 | a restart forgets the waypoints and clears the queue if so configured, and leaves it as it is otherwise |
| TransferPass.PassClosed | PoolerTran/src/poolertran/poller.py:261-284 | a transition pass in closed form: the fate of each row is determined by its own AMR's outcome and by the rows of its own place before the pass |
| TransferPass.OrderDoesNotMatter | PoolerTran/src/poolertran/poller.py:261-284 | for any outcomes, the order in which AMRs are visited changes neither the final queue nor the last waypoints |
| TransferPass.BatchDependsOnPlace | PoolerTran/src/poolertran/repository/queue_repo.py:100-166 | what a batch does to the rows of an AMR and waypoint depends on those rows only |
| TransferPass.BatchIsLocal | PoolerTran/src/poolertran/repository/queue_repo.py:100-166 | and it touches no other row |
| TransferPass.BatchRowByRow | PoolerTran/src/poolertran/poller.py:296-343 | a batch row by row: sent, it removes what it claimed; failed, it removes what was out of attempts and got its dead letter and counts one attempt on the rest; if it claimed as much as fits and removed something, everything else at its place goes too |
| TransferPass.ExactEffect | PoolerTran/src/poolertran/poller.py:267-282 | when REST and inserts succeed the new queue is the old one minus all rows of the previous waypoint of each AMR that moved, overflow or not |
| TransferPass.SentEmpties | PoolerTran/src/poolertran/poller.py:307-343 | a batch that is sent empties its place even if it did not hold all rows |
| TransferPass.NewestSurvives | PoolerTran/src/poolertran/repository/queue_repo.py:157-166 | whatever the outcomes, each AMR's newest row stays as it was |
| TransferPass.SecondPollIdle | PoolerTran/src/poolertran/poller.py:267-282 | a second poll with no arrivals changes nothing, even if batches of the first one failed |
| TransferQueue.ClaimOldest | PoolerTran/src/poolertran/repository/queue_repo.py:100-123 | claimed rows come in order of enqueueing, equally old ones by frame id, and no row of the place left behind belongs before one of them |
| TransferQueue.AmrHasRow | PoolerTran/src/poolertran/repository/queue_repo.py:157-166 | an AMR has a current waypoint if and only if it has a row with a place |
| TransferQueue.CurrentIsNewest | PoolerTran/src/poolertran/repository/queue_repo.py:157-166 | an AMR's current waypoint is that of its row enqueued last, of equally late ones the one with the highest frame id |
| TransferQueue.PlaceIs | PoolerTran/src/poolertran/repository/queue_repo.py:100-123 | a row's AMR is its frame's, and its waypoint that of the measurement it was enqueued with |
| TransferQueue.RepresentativeIsMax | PoolerTran/src/poolertran/poller.py:91-94 | the representative is the first row with the largest dust value, a missing value counting as smallest |
| TransferQueue.ChangedPlaces | PoolerTran/src/poolertran/repository/queue_repo.py:125-129 | deleting and counting attempts move no other row to another place |
| DecisionProducer.SensorVerdict | PoolerTran/src/poolertran/poller.py:84-88 | the batch's sensor verdict is abnormal if and only if some row exceeds the threshold |
| DecisionProducer.RecordOfBatch | PoolerTran/src/poolertran/poller.py:400-426 | the decision of a batch: its three channels, its place, the dust id of its first row with the largest value, and that row's receive time, else the newest in the batch, else the clock's |
| DecisionProducer.InsertedFacts | PoolerTran/src/poolertran/repository/decision_producer.py:20-33 | inserting a decision again changes nothing, keeps dust ids unique and keeps every earlier row |
| DecisionProducer.DecisionProducer.InsertDecision | PoolerTran/src/poolertran/repository/decision_producer.py:59-84 | the scan for the dust id and the insert are the idempotent insert |
| DecisionProducer.DecisionProducer.DeadLetter | PoolerTran/src/poolertran/repository/decision_producer.py:86-100 | the dead letter is written or overwritten |
| TransferPolling.Poller.CheckWaypointTransition | PoolerTran/src/poolertran/poller.py:261-284 | the pass is a run of the machine and leaves queue and last waypoints as in the closed form, for all current AMRs, or for those visited before the gateway raised - and the queue for one more, its waypoint not noted, if it was a commit that raised after it took effect |
| TransferPolling.Poller.ProcessWaypointBatch | PoolerTran/src/poolertran/poller.py:286-362 | one transaction commits exactly the batch effect, or is rolled back and leaves the queue as it was; a commit that raises may have done either |
| TransferPolling.Poller.ClaimAndProcess | PoolerTran/src/poolertran/poller.py:307-343 | claim, process, and discard the overflow exactly if the batch was full and something was cleared |
| TransferPolling.Poller.ProcessBatchRows | PoolerTran/src/poolertran/poller.py:364-441 | rows are deleted only after the decision is inserted; on any earlier exception every row counts a failure; the progress counters rise exactly if something was cleared |
| TransferPolling.Poller.SendAndRecord | PoolerTran/src/poolertran/poller.py:391-426 | one call, at most one new decision row, and that one is right for the batch |
| TransferPolling.Poller.HandleFailures | PoolerTran/src/poolertran/poller.py:392-395 | every row of a failed batch is handled in order |
| TransferPolling.Poller.HandleFailure | PoolerTran/src/poolertran/poller.py:443-477 | an exhausted row is dead-lettered and deleted; if that write raises, or the row is not exhausted, the attempt is counted |
| TransferPolling.Poller.DeleteAll | PoolerTran/src/poolertran/poller.py:429-433 | every row of the batch is deleted and counted |
| TransferPolling.Poller.SweepStale | PoolerTran/src/poolertran/poller.py:245-257 | no sweep at all if the limit is not positive; a sweep that raises may have taken effect |
| TransferPolling.Poller.Run | PoolerTran/src/poolertran/poller.py:201-224 | each round is a pass and a sweep; an exception does not stop the next round |
| TransferPolling.QueueRepository.FetchBatchForWaypoint | PoolerTran/src/poolertran/repository/queue_repo.py:217-225 | the oldest rows of the place up to the limit, joined to their sources |
| TransferPolling.QueueRepository.FetchCurrentWaypoints | PoolerTran/src/poolertran/repository/queue_repo.py:264-274 | each AMR once, with the waypoint of its newest row |
| TransferPolling.QueueRepository.PurgeWaypointRemainder | PoolerTran/src/poolertran/repository/queue_repo.py:253-262 | all rows of the place are deleted and counted |
| TransferPolling.CommitIsBatch | PoolerTran/src/poolertran/poller.py:296-343 | what a transaction of the machine commits is the batch effect |
| EgressMachine.DeliveryBound | SocketDaim/egress_gateway/sender.py:79-125 | over all crashes, exceptions and restarts: at most one completed send per decision; at most one plus the interrupted attempts copies in the table; marked sent only if the table holds it or, as it was read then, its measurement was missing or its level filtered out; every copy has the decision's event id and image |
| EgressMachine.DeliveredInCodes | SocketDaim/egress_gateway/sender.py:25-104 | every delivered row over all runs: its code is 0, 1, 2 or 3 if and only if the decision is normal, caution, warning or danger, and a start had allowed it; image and measurement are the decision's |
| EgressMachine.SkippedInLevels | SocketDaim/egress_gateway/sender.py:79-104 | a decision marked sent without a row had no measurement when it was read, or a level whose code is not among those a start had been configured with |
| EgressMachine.CopiesAgree | SocketDaim/egress_gateway/sender.py:27-58 | any two copies of a decision carry the same event id and image |
| EgressMachine.ExactlyOnce | SocketDaim/egress_gateway/sender.py:111-125 | a decision sent without interruption is in the table exactly once |
| EgressMachine.DuplicateAfterCrash | SocketDaim/egress_gateway/sender.py:106-125 | the bound is reached for every number of interruptions: n crashes, each right after an insert, yield n + 1 copies of any decision |
| EgressMachine.StepKeeps | SocketDaim/egress_gateway/sender.py:79-125 | every step keeps the invariant behind this |
| EgressMachine.StepLater | decision_agent/src/decision_agent/repository/decision_repo.py:170-193 | a final decision is written at most once, and sent marks are never taken back |
| EgressMachine.AddedFacts | SocketDaim/egress_gateway/outbox.py:54-64 | adding a decision twice keeps its first row |
| EgressMachine.RemovedFacts | SocketDaim/egress_gateway/outbox.py:66-71 | removing takes exactly that decision's row |
| EgressSending.Sender.Write | SocketDaim/egress_gateway/sender.py:111-125 | a send that returns true has inserted the row, emptied the outbox of it and marked the decision, in that order; a failed one ends the tick |
| EgressSending.Sender.SendRecord | SocketDaim/egress_gateway/sender.py:79-104 | a record that returns true is marked sent: skipped, or inserted |
| EgressSending.Sender.DrainOutbox | SocketDaim/egress_gateway/main.py:113-128 | rows are replayed in outbox order until one fails; if all succeed the outbox is empty and the table has grown by exactly these rows in order |
| EgressSending.Poller.Tick | SocketDaim/egress_gateway/poller.py:47-56 | a tick without failures that sends fewer than a batch leaves no decided record unsent; a failure ends the tick |
| EgressSending.Poller.Run | SocketDaim/egress_gateway/poller.py:29-45 | start, drain and ticks are a run of the machine |
| EgressSending.Outbox.Add | SocketDaim/egress_gateway/outbox.py:54-64 | the scan and insert are the idempotent insert |
| EgressSending.Outbox.Remove | SocketDaim/egress_gateway/outbox.py:66-71 | the row of the decision is deleted |
| EgressSending.Outbox.BumpAttempts | SocketDaim/egress_gateway/outbox.py:73-79 | only the attempts of that row rise |
| EgressSending.DecisionRepository.FetchPending | SocketDaim/egress_gateway/repository/decision_repo.py:32-54 | decided and unsent rows, longest decided first, all of them if they fit |
| EgressSending.DecisionRepository.MarkSent | SocketDaim/egress_gateway/repository/decision_repo.py:56-60 | only an unsent row is marked |
| EgressSending.DecisionRepository.MarkDecided | decision_agent/src/decision_agent/repository/decision_repo.py:170-193 | only a pending row is decided, and the result says whether it was |
| EgressSending.DecisionRepository.ForceDecide | decision_agent/src/decision_agent/repository/decision_repo.py:119-145 | the same for an administrator, who cannot choose danger |
| EgressSending.Sink.Write | SocketDaim/egress_gateway/sink.py:67-81 | a plain insert: nothing prevents a second copy |
| StationNames.NeverMisused | Dumopro_Data_Analysis_WebApp/apps/poller/main.py:98-188 | in one poller run from empty Redis, with reconcile and API commands interleaved one by one and resolve requests overlapping in any way: no task is started under an id that neither wrote the data last nor had it carried over since, unless the data was wiped - as long as every stop leaves its marker and no request writes the marker late, that is, while no task is registered and after the conflict it was opened for is gone |
| StationNames.SafeFromHere | Dumopro_Data_Analysis_WebApp/apps/poller/main.py:145-176 | from any idle state, whatever led to it - late requests, lost markers - no undisturbed run ever starts a task on foreign data if and only if the marker, if there is one, names an id with a claim and, if there is none, the data is not of the kind the remnant probe overlooks |
| StationNames.LostMarkers | Dumopro_Data_Analysis_WebApp/apps/poller/main.py:76-82 | if markers may be lost but no request comes late, a start is wrong if and only if there is no marker, the data is of the kind the remnant probe overlooks, and another station wrote it without a carry-over; and an idle name stays safe if and only if there is a marker or no such data |
| StationNames.LostMarkerMisuses | Dumopro_Data_Analysis_WebApp/apps/poller/main.py:76-82 | a run without any resolve request in which one marker is lost and the next station is started on the first one's live data |
| StationNames.LateWipeMisuses | Dumopro_Data_Analysis_WebApp/apps/api/routes/stations.py:84-107 | a run without lost markers in which the slower of two overlapping requests to start fresh clears the marker late, and a third station is started on the second one's live data |
| StationNames.LateCarryMisuses | Dumopro_Data_Analysis_WebApp/apps/api/routes/stations.py:98-104 | a run without lost markers in which a late carry-over sets the marker between a stop and the stopped task's last write, and a station is started on another one's data although its cursor is in plain sight |
| StationNames.StepKeeps | Dumopro_Data_Analysis_WebApp/apps/poller/main.py:98-188 | each command keeps the invariant behind the safety property |
| StationNames.ProceedKeeps | Dumopro_Data_Analysis_WebApp/apps/api/routes/stations.py:84-107 | so does each command of a resolution |
| Reconciler.Dichotomy | Dumopro_Data_Analysis_WebApp/apps/poller/main.py:98-188 | over every interleaving of the pass with database changes, tasks, resolve requests and lost markers, whatever Redis held at boot: a name never both runs and is in conflict; after a boot or its turn in a pass what runs is what the poller saw in the database; and a station it saw is neither running nor in conflict if and only if a request has cleared the pending conflict since that boot or turn |
| Reconciler.ClearedMeanwhile | Dumopro_Data_Analysis_WebApp/apps/api/routes/stations.py:106-107 | the exception happens: a conflict cleared after the name's turn leaves its station neither running nor in conflict until the next pass |
| Reconciler.PassIsRun | Dumopro_Data_Analysis_WebApp/apps/poller/main.py:98-188 | an undisturbed turn of the pass, with or without a marker that can be written, is a run of the interleaved machine |
| Reconciler.ResolveIsRun | Dumopro_Data_Analysis_WebApp/apps/api/routes/stations.py:71-108 | a resolve request that nothing disturbs is a run of that machine, and does what the resolution as a whole does |
| Reconciler.WhenInConflict | Dumopro_Data_Analysis_WebApp/apps/poller/main.py:122-188 | a turn raises a conflict if and only if another id runs or is remembered, or none is and there is a cursor or a frozen index; it names that id, if any, and the new one; a pending conflict stays as it is |
| Reconciler.WhatRuns | Dumopro_Data_Analysis_WebApp/apps/poller/main.py:122-188 | after a turn the database's id runs if and only if no conflict was pending and it ran before, or nothing ran and it is the remembered one or nothing is remembered and no data is seen |
| Reconciler.WhatIsRemembered | Dumopro_Data_Analysis_WebApp/apps/poller/main.py:41-95 | after a turn the id of a stopped task is remembered, none if one was started, and the same as before otherwise; data is not touched |
| Reconciler.WhatBoots | Dumopro_Data_Analysis_WebApp/apps/poller/main.py:246-267 | a boot starts the database's id unless a conflict is pending, whatever is remembered or left |
| Reconciler.Poller.ReconcileOnce | Dumopro_Data_Analysis_WebApp/apps/poller/main.py:98-188 | the loop over published, present and running names does to each name what one turn does, and settles all, whichever markers can be written; if the database cannot be read it does nothing |
| Reconciler.Poller.Turn | Dumopro_Data_Analysis_WebApp/apps/poller/main.py:122-188 | the turn of one name changes that name only, as the case analysis says |
| Reconciler.Poller.Boot | Dumopro_Data_Analysis_WebApp/apps/poller/main.py:246-267 | every station without a pending conflict is started, without further checks, and all are settled |
| Reconciler.Poller.StartTask | Dumopro_Data_Analysis_WebApp/apps/poller/main.py:41-63 | the station task is registered and the marker cleared, if that does not raise; if it does the task runs all the same |
| Reconciler.Poller.StopTask | Dumopro_Data_Analysis_WebApp/apps/poller/main.py:66-95 | the station task is taken off and its id remembered, if that does not raise; if it does the task is stopped all the same |
| Reconciler.StationRedis.ResolveConflict | Dumopro_Data_Analysis_WebApp/apps/api/routes/stations.py:71-108 | without a conflict nothing changes; start fresh wipes data and marker, carry over sets the marker to the new id; either way the conflict is gone |
| Reconciler.StationRedis.DeleteStationData | Dumopro_Data_Analysis_WebApp/libs/dumopro_core/redis_client.py:215-247 | pattern by pattern all keys of the name go, and the marker last |
| Reconciler.StationRedis.HasRemnantData | Dumopro_Data_Analysis_WebApp/libs/dumopro_core/redis_client.py:249-261 | true exactly if there is a cursor or a frozen index |
| DustFraming.UnpackUndoesPack | SocketDaim/libs/gw_proto/gw_proto/codec/loas/dust_framing.py:55-91 | unpacking a packed header gives it back, for all fields in range; others cannot be packed |
| DustFraming.PackUndoesUnpack | SocketDaim/libs/gw_proto/gw_proto/codec/loas/dust_framing.py:55-91 | packing an unpacked header gives the twelve bytes back |
| DustFraming.HeaderBytes | SocketDaim/libs/gw_proto/gw_proto/codec/loas/dust_framing.py:72-91 | where each field lies in the twelve bytes, low byte first |
| DustFraming.RulesInNumbers | SocketDaim/libs/gw_proto/gw_proto/codec/loas/dust_framing.py:94-116 | which headers break which rule: marker 0xAABB, object id 0xD002, version 2, at most 1448 bytes, in this order |
| DustServer.ReceiveInBytes | SocketDaim/libs/gw_proto/gw_proto/transport/loas_dust_server.py:86-140 | the loop byte by byte on any stream: when it stops and why, and that a frame is delivered if and only if its encryption byte is 0 |
| DustServer.ReceiveEncoded | SocketDaim/libs/gw_proto/gw_proto/transport/loas_dust_server.py:86-140 | any frames followed by any bytes: the plain ones are delivered in order, then whatever the rest parses to |
| DustServer.ReceiveDecomposes | SocketDaim/libs/gw_proto/gw_proto/transport/loas_dust_server.py:86-140 | every stream is such a concatenation with a tail at which the loop stops, and nothing after a rejected header or truncated body is delivered |
| DustServer.DecompositionUnique | SocketDaim/libs/gw_proto/gw_proto/transport/loas_dust_server.py:86-140 | in only one way |
| DustServer.Connection.OnConnect | SocketDaim/libs/gw_proto/gw_proto/transport/loas_dust_server.py:76-140 | the loop delivers exactly that |
| CctvFraming.UnpackUndoesPackCctv | SocketDaim/libs/gw_proto/gw_proto/codec/loas/cctv_framing.py:33-91 | unpacking a packed header gives it back |
| CctvFraming.PackUndoesUnpackCctv | SocketDaim/libs/gw_proto/gw_proto/codec/loas/cctv_framing.py:33-91 | packing an accepted header gives the nine bytes back |
| CctvFraming.CctvHeaderBytes | SocketDaim/libs/gw_proto/gw_proto/codec/loas/cctv_framing.py:60-91 | which nine bytes are accepted and what they say: ASCII, one of the three tags, length high byte first |
| CctvServer.ReceiveInBytes | SocketDaim/libs/gw_proto/gw_proto/transport/loas_cctv_server.py:106-205 | the loop byte by byte on any stream: when it stops and why, and what image a frame is, its length read low byte first only if high byte first is too large |
| CctvFraming.ByteOrderDomain | SocketDaim/libs/gw_proto/gw_proto/transport/loas_cctv_server.py:140-169 | every big-endian length up to 16 MiB is read correctly; a little-endian one if and only if it is not 1 and is no multiple of 256 or has palindromic bytes |
| CctvFraming.MisreadLength | SocketDaim/libs/gw_proto/gw_proto/transport/loas_cctv_server.py:140-169 | and what is read instead of a little-endian length outside that domain |
| CctvServer.ReceiveEncoded | SocketDaim/libs/gw_proto/gw_proto/transport/loas_cctv_server.py:106-205 | any frames whose lengths are readable, followed by any bytes: all images in order, then whatever the rest parses to |
| CctvServer.ReceiveDecomposes | SocketDaim/libs/gw_proto/gw_proto/transport/loas_cctv_server.py:106-205 | every stream splits into such frames and a tail at which the loop stops |
| CctvServer.DecompositionUnique | SocketDaim/libs/gw_proto/gw_proto/transport/loas_cctv_server.py:106-205 | with the same images and the same tail in every case |
| CctvServer.ReadableFrames | SocketDaim/libs/gw_proto/gw_proto/transport/loas_cctv_server.py:140-169 | which frames are readable in which byte order |
| CctvServer.Connection.OnConnect | SocketDaim/libs/gw_proto/gw_proto/transport/loas_cctv_server.py:91-205 | the loop delivers exactly that, with the exit reason and the number of frames |
| Purge.FairBatch | SocketDaim/cleaner/cleanup.py:176-221 | one batch of the oldest rows keeps it true that rows go only with their files and that only rows whose file was tried in vain, by the log of unlink attempts, are passed over |
| Purge.Storage.EmergencyPurge | SocketDaim/cleaner/cleanup.py:139-241 | for any unlink failures: the purge starts if and only if the disk reading is not below the threshold; each batch follows a reading above the target; a row is deleted only if its file is gone; the log of this run holds a failed unlink for every surviving row older than a deleted one; failures are exactly the failed unlinks; iterations are at most rows removed plus one; it stops short of the cap of 1000 only at the target, on an unreadable disk, or after all of a batch of the oldest rows, which is empty for an empty table, was tried in vain |
| Purge.Storage.PurgeAllFrames | SocketDaim/cleaner/cleanup.py:244-297 | the same without the disk gate; below its cap it ends after all of a batch of the oldest rows, which is empty for an empty table, was tried in vain |
| Purge.Storage.PurgeBatch | SocketDaim/cleaner/cleanup.py:176-221 | one batch: each file is tried, exactly the rows whose files are gone are deleted, and files removed and failed unlinks are counted |
| Purge.Storage.UnlinkAll | SocketDaim/cleaner/cleanup.py:191-207 | the log of attempts grows by exactly one entry per row, in order and with its path; reported are the rows whose entry is a success or a missing file; the failed entries are counted |
| Purge.Storage.FetchOldest | SocketDaim/cleaner/cleanup.py:65-69 | the oldest rows by receive time |
| Purge.Storage.PurgeVideos | SocketDaim/cleaner/cleanup.py:90-116 | exactly the expired videos of the kind - normal ones are those valid and not excluded - are removed, batch by batch; the unlink of each one's file has been tried, successfully or not |
| Correlator.PairingStable | SocketDaim/ingestion_gateway/correlator.py:32-51 | over all runs in which measurements are not deleted: a pairing never changes; it lies in the window; and no measurement present at its tick was nearer |
| Correlator.TickExhausts | SocketDaim/ingestion_gateway/correlator.py:87-92 | the update statement, as a join of unpaired recent frames with the measurements in their window of which the nearest per frame is kept, leaves no unpaired frame within the lookback with a measurement in its window, and an immediate second one pairs nothing |
| Correlator.UpdateTicks | SocketDaim/ingestion_gateway/correlator.py:32-51 | what that join does to each row: a paired frame stays as it is, an unpaired one is paired only with a nearest of all measurements in its window, and no recent one with a measurement in its window is missed |
| Correlator.UpdateRowByRow | SocketDaim/ingestion_gateway/correlator.py:32-51 | the statement row by row in plain numbers: exactly an unpaired frame received less than the lookback ago, with a measurement at most `after` before it or `before` after it, is paired, with one that none in the window is nearer than |
| Correlator.FrameCorrelator.Tick | SocketDaim/ingestion_gateway/correlator.py:87-92 | the pass does to the table what the statement says, and returns the number of frames newly paired |
| Correlator.FrameCorrelator.FindNearest | SocketDaim/ingestion_gateway/correlator.py:43-49 | a nearest measurement in the window, if there is any |
| Broadcast.QueueHistory | Dumopro_Data_Analysis_WebApp/apps/api/services/sse_broadcaster.py:177-189 | for any interleaving of publishing and taking, a queue is a contiguous suffix of what was published; the rest was received in order without repeats, or dropped, and dropped only when the client was a whole queue behind |
| Broadcast.NothingMissed | Dumopro_Data_Analysis_WebApp/apps/api/services/sse_broadcaster.py:177-189 | nothing is dropped if and only if there is room in the queue before every publish; then what the client received followed by what is queued is everything published |
| Broadcast.OfferedFacts | Dumopro_Data_Analysis_WebApp/apps/api/services/sse_broadcaster.py:180-189 | the new payload goes to the end; exactly one is dropped if the queue was full, and none otherwise |
| Broadcast.ClientQueue.Offer | Dumopro_Data_Analysis_WebApp/apps/api/services/sse_broadcaster.py:180-189 | a full queue loses its oldest payload to the new one |
| Broadcast.ClientQueue.Get | Dumopro_Data_Analysis_WebApp/apps/api/services/sse_broadcaster.py:208-217 | the client gets the oldest payload it has not seen |
| Broadcast.Broadcaster.Subscribe | Dumopro_Data_Analysis_WebApp/apps/api/services/sse_broadcaster.py:33-41 | a new empty queue joins the station; a pump is registered exactly for the stations with subscribers |
| Broadcast.Broadcaster.Unsubscribe | Dumopro_Data_Analysis_WebApp/apps/api/services/sse_broadcaster.py:43-52 | the queue leaves; with the last one the pump goes |
| Broadcast.Broadcaster.SubscribeAll | Dumopro_Data_Analysis_WebApp/apps/api/services/sse_broadcaster.py:55-65 | the same for the all-station queues and their one pump |
| Broadcast.Broadcaster.UnsubscribeAll | Dumopro_Data_Analysis_WebApp/apps/api/services/sse_broadcaster.py:67-72 | the same for leaving |
| Broadcast.Broadcaster.FanOut | Dumopro_Data_Analysis_WebApp/apps/api/services/sse_broadcaster.py:177-189 | every subscriber of the station, and nobody else, is offered the payload |
| Broadcast.Broadcaster.FanOutAll | Dumopro_Data_Analysis_WebApp/apps/api/services/sse_broadcaster.py:113-125 | every all-station subscriber is offered the payload |
| Broadcast.Broadcaster.Close | Dumopro_Data_Analysis_WebApp/apps/api/services/sse_broadcaster.py:127-142 | no queue and no pump remains |
| VideoAssembly.Reassembly | SocketDaim/ingestion_gateway/handler/video_handler.py:43-173 | any body cut into numbered chunks, each built into a payload and handed to the handler in any order, with repetitions, premature and repeated completions, failed saves and other traffic in between: a completion goes through if and only if all pieces have arrived since the last one that did; when it is stored the file is the body; otherwise the file is never more than a beginning of the body |
| VideoAssembly.ParseBuilt | SocketDaim/libs/gw_proto/gw_proto/messages.py:74-116 | a built chunk payload is parsed into the same header and body, newlines in the body included |
| VideoAssembly.WhatParses | SocketDaim/libs/gw_proto/gw_proto/messages.py:74-116 | exactly which payloads parse: a readable header that names a station, the first newline, and anything after it |
| VideoAssembly.AssembleNumbered | SocketDaim/ingestion_gateway/handler/video_handler.py:163-173 | the numbered pieces in ascending order give the body |
| VideoAssembly.EventsHold | SocketDaim/ingestion_gateway/session.py:24-37 | after any such events the buffer holds exactly the pieces that have arrived since the video was last completed, and the file is never more than a beginning of the body |
| VideoAssembly.VideoHandler.HandleChunk | SocketDaim/ingestion_gateway/handler/video_handler.py:43-90 | the chunk is parsed and buffered; a malformed chunk or an unknown station is answered with an error and changes nothing |
| VideoAssembly.VideoHandler.HandleComplete | SocketDaim/ingestion_gateway/handler/video_handler.py:94-159 | acknowledged if and only if the video is complete and stored; a complete video's buffer is dropped even if the save or the row fails; an incomplete one is kept and nothing changes |
| VideoAssembly.VideoHandler.AssembleAndSave | SocketDaim/ingestion_gateway/handler/video_handler.py:163-173 | the loop writes the chunks in ascending order; a write that fails leaves the first bytes of the assembled content |

## Left out

- Samples whose times decrease in id order: the cache need not agree with the table for them, and the theorems about runs take times that do not decrease; `CacheRetry.FilingApart` and `CacheRetry.LateSample` hold for any times.
- Retries of a tick that failed after a freeze, unless the rows read again lie in no frozen bucket: see `CacheRetry`.
- Liveness of freezing beyond `FreezeTiming`: pending buckets are kept in memory only, a later boundary overwrites an earlier one, and ticks never freeze hour buckets, so an old bucket may stay live for ever.
- FreezeTiming.LeftIsWaiting: after an exception the last-seen keys may be ahead of the rows that are read again, and the bucket left by the first of them may have been frozen and forgotten already, so only what is left within the batch is certain.
- Which candle events are published, and the stalled event: publishing stores nothing, and a publish that raises is an exception like any other.
- A poll batch limit of zero, and a page or batch size of zero in the theorems that say so.
- CacheProgress.ExactAfterTick: takes restarts whose batch limit reaches what has been filed; with others it is false, exactly as `CacheLimit.RestartDomain` says, and `CacheLimit.LoweredLimitBreaks` is a run.
- Years before 1000, whose keys are not padded alike on every platform, and the conversion of time zones to UTC; keys given to the time inference in forms `strptime` tolerates but the poller never writes.
- BoxStats.BoxShape: over the reals; rounding and NaN values are not modelled.
- Redis scores that are equal are ordered by member text; the model sorts values, which gives the same list of values.
- Key names are pairs of unit and key under one station; names that contain the separator and so collide are not modelled.
- What carry_over does to candles of the old and the new station in one bucket: the cache theorems are about one station id from an empty store.
- Shapes of REST answers and their parsing, reading and encoding of the image, thresholds other than as optional numbers, and log output of the batch consumer.
- Orphan rows in the batch consumer: the claim query cannot return one, so the branch that deletes them and its counter do not appear.
- Several consumers at once, the order in which database ids become visible, and LISTEN/NOTIFY wake-ups.
- TransferPass.OrderDoesNotMatter: speaks of queue and last waypoints; two AMRs whose representatives share a dust id compete for one decision row, and then the order decides which one is kept.
- The judging agent apart from its guarded updates, and the regression service, the admin pages and the front end.
- EgressMachine.DeliveryBound: other columns than event id and image come from the measurement row, which may change or vanish between attempts, and are kept abstract.
- Exceptions inside a reconcile pass: they end the poller process. The five-second limit and cancellation of a stop are the step between taking a task off and its end.
- StationNames.NeverMisused: excludes lost markers and late marker writes, with which it is false: see `StationNames.SafeFromHere` and the three runs. One poller process; a restart loses the memory of running tasks and boots without the re-registration checks.
- Residual keys of the regression service, which are neither written by the poller nor looked at by the remnant probe.
- Resets and cancellations of a TCP connection, the peek at extra bytes for the log, and handlers that raise: the loops go on or end as after the commands modelled.
- Disk usage is an arbitrary reading before each batch; sensor and log retention, schedules and triggers of the cleaner.
- Purge.Storage.EmergencyPurge: nothing else inserts or deletes frame rows while it runs.
- Purge.Storage.PurgeBatch: a database command that raises ends the purge there; the next one finds the files missing and deletes their rows.
- Correlator.PairingStable: measurements are not deleted; with the foreign key set to null a frame could be paired again.
- A pump that has died of an exception stays registered, so a station may have subscribers and a registered pump that delivers nothing.
- Reconciler.Poller.ReconcileOnce: an undisturbed pass; what other commands in between do is the subject of `Reconciler.Dichotomy`.
- Correlator.FrameCorrelator.Tick: the clock is read once per frame; a plan that reads it once per joined pair is not modelled.
- VideoAssembly.Reassembly: header printing is a parameter assumed injective and free of newlines; a sender that changes the number of chunks, and the same video id on two connections, are not modelled.
- Framing of the gateway's own protocol, dust XML parsing, and the waypoint gate.
