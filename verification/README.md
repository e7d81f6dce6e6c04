# Verification of the collider event service

Collider is an HTTP service that ingests tracking events and reads them back in
pages. This project models the parts of it whose correctness is not visible from
any one function, and proves what they promise.

**The ingest pipeline.** Many `Enqueue` calls feed a bounded channel; one flush
loop batches by size or by tick; a failed batch falls back to concurrent retries
of single events; what still fails goes into a bounded dead-letter queue that
evicts its oldest entry; a write-ahead store (a bolt bucket, written by a second
goroutine) brings pending events back after a restart. It is modelled twice:

* as classes, one call at a time: `EventQueue.dfy`, `Retry.dfy`,
  `BatchRetry.dfy`, `DeadLetter.dfy`, `Persistence.dfy`, `FlushRemoval.dfy`;
* as a transition system with a program counter for every `Enqueue` call,
  `Start`, the flush loop, the write loop and `Shutdown`, and a crash at any
  moment: `Pipeline.dfy`, with one file for each family of results
  (`PipelineFifo`, `PipelineDepth`, `PipelineAccounts`, `PipelineShutdown`,
  `PipelineStragglers` and `PipelineStranding`, `PipelineCrash` and `PipelineRoom`,
  `PipelineRecovery` and `PipelineProgress`, `PipelineHistory` and `PipelineOrigin`,
  `PipelineWitnesses`). `PersistenceProtocol.dfy` and `PersistenceHistory.dfy` do the
  same for the locks and channels inside the write-ahead store, and `BatchRetry.dfy`
  for the item goroutines. `RetryRefinement.dfy` shows that every schedule of
  `BatchRetry` is a run of the pipeline's flush, whatever the other goroutines do
  meanwhile, and `RetryTraces.dfy` that its small steps are the retry loop. Results about these systems
  hold in every state of every run; `Machines.dfy` has the induction.

**The id generator.** `Words.dfy` defines 64-bit words bit by bit, `Snowflake.dfy`
the packing, the parsers and one call of `Generate` against an arbitrary stream of
clock readings, `SnowflakeFleet.dfy` any number of generators called in any order,
`SnowflakeNumbers.dfy` the sequence numbers they give out.

**The short cuts on the read and write side.** `EventStore.dfy`,
`BatchInsert.dfy` and `EventStoreImpl.dfy` compare the batch insert and its type
cache with inserting one event at a time; `Pagination.dfy` compares pages with the
whole ordered list; `CacheKeys.dfy` and `Decimals.dfy` are about the text of cache
keys and the patterns that clear them; `Repository.dfy`, `RepositoryFresh.dfy` and
`RepositoryImpl.dfy` compare a cached read with an uncached one.

A store insert, a bolt transaction, a SQL statement and a Redis command are
atomic; whether they succeed is up to the environment, except where a result says
otherwise. Clocks, timers, cancellation, the order of map iteration and of SCAN,
and the scheduler are arbitrary.

Where the code does less than its documentation suggests, the code is modelled as
it is, and the results say exactly when the promise holds:

* "events are not lost on crashes or restarts" (`internal/queue/persistence.go:3`)
  needs each flush's failures to fit in the dead-letter queue:
  `PipelineCrash.CrashSafety`, `PipelineRoom.FlushSafeIffRoom`,
  `FlushRemoval.ExactIffFits`, and a losing run for every configuration with a
  write-ahead store, `PipelineWitnesses.LossyRun`.
* `Enqueue` can report success for an event no flush will ever see. Once the flush
  loop exists or is sure to, setting the flag can lead to that if and only if some
  call is between its read of the flag and the lock; where `Start` has failed or may
  fail (it reads the write-ahead store, and `Enqueue` does not wait for it), if and
  only if some call was or can be accepted:
  `PipelineStranding.ShutdownStrandsNothingIff`, and
  `PipelineStranding.StrandsNothingIff` for any later moment.
* ids are strictly increasing whatever the clock does if and only if the epoch
  lies in 0..2^41 or is -2^41: `SnowflakeFleet.IncreasingIffGoodEpoch`. The default
  epoch is one of these.
* a page is the intended one if and only if its offset is one the database takes
  and did not wrap around into the list: `Pagination.PageIsIntendedIff`, with `Pagination.FarPageRepeatsFirst`.
* a queue flush does not clear the page cache, so it makes exactly the pages of the
  users it touches stale: `RepositoryFresh.FlushStaleIff`.

## Model

| member | source | states |
|---|---|---|
| `PipelineCrash.CrashSafety` | internal/queue/event_queue.go:312-373 | In every state of every run of enqueue, put, flush, remove, crash and restart in which each flush's failures fit in the dead-letter queue's free room, every id whose put has committed is in the bucket or in the events table |
| `PipelineCrash.CommittedStaysKept` | internal/queue/persistence.go:95-125 | An id whose put has committed in one state of such a run is in the bucket or in the events table in every later state, across crashes |
| `PipelineCrash.RemovalSafeIffRoom` | internal/queue/event_queue.go:341-373 | For a flush of distinct ids whose retries are over and whose failures are committed and not stored: the removal keeps every committed id if and only if the failures fitted |
| `PipelineRoom.FlushSafeIffRoom` | internal/queue/event_queue.go:312-373 | Before a flush of distinct committed events not yet in the table: every crash-free way of going through it, other goroutines in between, keeps all committed events if and only if the whole batch would fit in the dead-letter queue's free room |
| `PipelineWitnesses.LossyRun` | internal/queue/event_queue.go:341-373 | For every configuration with a write-ahead store, a run that fills the dead-letter queue and then loses a committed event: it is in neither the bucket nor the table |
| `PipelineFifo.FifoConservation` | internal/queue/event_queue.go:223-310 | In every interleaving the events sent to the channel, recovered ones included, are all flushed batches end to end, then the batch in hand, then the channel; the channel never exceeds MaxSize |
| `PipelineFifo.FlushSizes` | internal/queue/event_queue.go:274-310 | No flush is empty; a flush by size has exactly BatchSize events and one by tick fewer |
| `PipelineDepth.DepthCounter` | internal/queue/event_queue.go:197-248 | currentDepth is the channel length minus the recovered count, minus 1 while a producer has sent but not counted, plus 1 while the loop has received but not counted; with nothing recovered it stays in -1..MaxSize+1 |
| `PipelineDepth.MaxDepthIsPeak` | internal/queue/event_queue.go:227-234 | maxDepth is the largest of 0 and the published post-send depths, at most MaxSize+1 |
| `PipelineDepth.MaxDepthSwapSucceeds` | internal/queue/event_queue.go:229-234 | The compare-and-swap on maxDepth never fails: what the lock holder loaded is still there |
| `PipelineDepth.MutualExclusion` | internal/queue/event_queue.go:223-247 | At most one Enqueue call is between its lock and its unlock |
| `PipelineAccounts.FlushConservation` | internal/queue/event_queue.go:330-342 | What has been flushed, as a multiset, is what was inserted plus what was dead-lettered plus what is still being retried; the dead-letter queue holds the last maxSize entries ever added, in order |
| `PipelineAccounts.TelescopingAccounts` | internal/queue/event_queue.go:341-379 | Between critical sections totalEnqueued = totalFlushed + dead letters + batch + channel, and totalFlushed = inserted + evicted, evictions included |
| `PipelineShutdown.OnlyStragglersRemain` | internal/queue/event_queue.go:186-225 | Once the drain has found the channel empty, what is in it again was sent, position by position, by different Enqueue calls that had read stopped as false and did not have the lock when Shutdown set the flag; with no such call it is empty |
| `PipelineShutdown.DrainConservation` | internal/queue/event_queue.go:291-307 | Once the flush loop has exited, everything ever sent was inserted or dead-lettered, except what is in the channel |
| `PipelineShutdown.NoAcceptedEventLeft` | internal/queue/event_queue.go:392-403 | With no call between its read of the flag and the lock when Shutdown set the flag, every event whose Enqueue succeeded was inserted or dead-lettered |
| `PipelineShutdown.ClosedIffShutDown` | internal/queue/event_queue.go:392-424 | In every reachable state the stopped flag is set exactly from the first step of Shutdown on, and the write-ahead store is closed exactly when Shutdown has closed it at its end |
| `PipelineStranding.ShutdownStrandsNothingIff` | internal/queue/event_queue.go:147-225 | Before Shutdown sets the flag, whatever the stage of Start: no crash-free continuation of setting it leaves an accepted event where no loop will see it if and only if no call is between its read of the flag and the lock or, where Start has failed or may fail, no call was or can be accepted |
| `PipelineStranding.StrandsNothingIff` | internal/queue/event_queue.go:392-403 | The same at any moment after the flag was set: every call that has yet to send holds the lock Shutdown is waiting for and, once the drain is over, the channel is empty; where Start has failed or may fail, every call was refused |
| `PipelineStranding.StaysEmptyIff` | internal/queue/event_queue.go:291-307 | Once the drain has found the channel empty, it stays empty in every crash-free continuation if and only if no call is before its send |
| `PipelineWitnesses.StragglerRun` | internal/queue/event_queue.go:187-225 | For every configuration, a run in which Enqueue succeeds and its event stays in the channel of an exited loop |
| `PipelineRecovery.EveryEventSentOrFull` | internal/queue/event_queue.go:159-169 | In every run from the moment Start has read its list until the flush loop is spawned, whatever producers do: each event of the list is put at the end of the channel at a moment when there is room, or passed over at a moment when the channel holds MaxSize events |
| `PipelineRecovery.FirstOnesSent` | internal/queue/event_queue.go:159-180 | With nobody else sending, what has been sent when the loop is spawned is the beginning of the list, as long as there were free slots, in order, behind what was in the channel |
| `PipelineRecovery.FittingListIsSent` | internal/queue/event_queue.go:159-180 | So a list that fits is sent whole, in order |
| `PipelineRecovery.ReadsBucketIff` | internal/queue/event_queue.go:152-158 | Start goes on with a list exactly when it is empty and there is no write-ahead store, or when that is open and the list has entries of the bucket, none twice |
| `PipelineProgress.CanSettleAll` | internal/queue/event_queue.go:250-310 | From every reachable state with the loop in service, the loop alone can empty the channel and the batch so that everything sent was inserted or dead-lettered, each event as often as it was sent: a receive, a tick and every step of a flush are there when needed |
| `PipelineProgress.CallCanReturn` | internal/queue/event_queue.go:186-248 | From every reachable state, shutting down or not, every Enqueue call in progress can return: nobody keeps the lock for good |
| `PipelineProgress.RestartSettlesAll` | internal/queue/event_queue.go:147-184 | After a crash in any reachable state, for every listing of the bucket that fits in the channel: a run of the new process in which exactly the listed events are inserted or dead-lettered, once each |
| `PipelineOrigin.NothingInvented` | internal/queue/persistence.go:108-119 | In every state of every run, crashes and restarts included, everything sent to the channel was given to some Enqueue, and so was every entry of the bucket, unchanged and under its own id |
| `PipelineOrigin.SettledWasGiven` | internal/queue/event_queue.go:317-339 | Everything inserted or dead-lettered has the id, user, type and metadata of an event given to some Enqueue |
| `PipelineOrigin.RowsWereGiven` | internal/queue/event_queue.go:312-339 | Every row of the events table has the id of an event given to some Enqueue, in this process or one before a crash |
| `PipelineHistory.AcceptedWithReason` | internal/queue/event_queue.go:186-248 | In every run of a process, an Enqueue that succeeded began with the flag unset, read a depth below MaxSize and, holding the lock, found room in the channel |
| `PipelineHistory.RefusedWithReason` | internal/queue/event_queue.go:186-248 | One that was refused had found what its error says: the flag set when it began, a depth of at least MaxSize, or the channel full under the lock |
| `PipelineHistory.HandedUnlessFull` | internal/queue/persistence.go:127-147 | A call past its hand-over gave its event to the write loop exactly once if, at that step, there was a write-ahead store, it was open and fewer than 1000 events were waiting, and not at all otherwise |
| `PipelineHistory.WriteQueueIsFifo` | internal/queue/persistence.go:95-147 | In every state of every run the events handed over are, in order, those the write loop has taken and then those that wait |
| `PipelineHistory.PutUnlessClosed` | internal/queue/persistence.go:98-120 | In every run of a process, an event the write loop has taken is put unless the store is closed at the step that reads the flag, and is passed over then |
| `EventQueues.Validate` | internal/queue/event_queue.go:108-120 | A configuration is accepted exactly when 0 < BatchSize <= MaxSize and the interval is positive; otherwise the error names the first thing that is wrong |
| `EventQueues.EventQueue.Start` | internal/queue/event_queue.go:147-184 | Fails exactly on a second call or when the write-ahead store is closed or unreadable; otherwise the channel grows by entries of the bucket, none twice, left out only when the channel is full; counters and order stay consistent |
| `EventQueues.EventQueue.Enqueue` | internal/queue/event_queue.go:186-248 | Which of the four results is returned, exactly; the event is appended to the channel on success only, the put is attempted past the two refusals, and depth and maximum follow |
| `EventQueues.EventQueue.Receive` | internal/queue/event_queue.go:276-283 | The oldest event moves to the batch; a batch that reaches BatchSize is flushed whole and emptied |
| `EventQueues.EventQueue.Tick` | internal/queue/event_queue.go:285-289 | A non-empty batch is flushed and emptied |
| `EventQueues.EventQueue.Drain` | internal/queue/event_queue.go:291-307 | Channel and batch end empty, what was sent is what was flushed, and it is as a multiset what was stored and what was dead-lettered |
| `EventQueues.EventQueue.Flush` | internal/queue/event_queue.go:312-382 | Stored and dead-lettered events together are the batch; the removal attempted is the inferred list and nothing else leaves the bucket; totals follow the queue's growth; with room the list is exact |
| `EventQueues.ComputeRemoval` | internal/queue/event_queue.go:344-365 | The two loops compute the inferred removal list |
| `EventQueues.Convert` | internal/queue/event_queue.go:317-328 | The loop carries over id, user, type and metadata of each event and lists the ids, in order |
| `FlushRemoval.ExactWhenFits` | internal/queue/event_queue.go:330-365 | For every failure pattern and arrival order, duplicates included, if the failures fit then the ids removed are exactly the batch ids with no failed copy |
| `FlushRemoval.ExactIffFits` | internal/queue/event_queue.go:330-365 | With distinct ids the removal is exact if and only if the failures fit |
| `FlushRemoval.OverflowRemovesFirstFailure` | internal/queue/event_queue.go:330-365 | When they do not fit, the first failure of the batch is on the removal list |
| `FlushRemoval.SafeForEveryPatternIff` | internal/queue/event_queue.go:330-365 | Before the flush: every failure pattern will be handled exactly if and only if the whole batch would fit |
| `DeadLetter.DeadLetterQueue.Add` | internal/retry/retry.go:55-64 | The queue keeps the last maxSize entries ever added, in order |
| `DeadLetter.LengthGrowth` | internal/retry/retry.go:55-70 | The length grows by the number of additions or by the free room, whichever is smaller |
| `DeadLetter.TailIsWhatWasAdded` | internal/retry/retry.go:55-79 | While additions fit they are the queue's tail, behind what was there |
| `Retry.WithRetry` | internal/retry/retry.go:89-136 | The function is called until the first success, the first cancellation seen or the attempt limit; exactly Attempts calls; success reported if and only if the last call succeeded; the error says which; the waits are the backoff sequence |
| `Retry.OutcomeUnique` | internal/retry/retry.go:89-136 | These conditions leave no freedom: result, number of calls and waits are determined |
| `Retry.DelayClosedForm` | internal/retry/retry.go:113-128 | For an integer multiplier m >= 1 and BaseDelay <= MaxDelay the k-th wait is min(BaseDelay * m^k, MaxDelay) |
| `Retry.NextWait` | internal/retry/retry.go:124-128 | For every multiplier a wait is the longest whole duration that exceeds neither the previous one times the multiplier nor MaxDelay |
| `Retry.DelaysNeverDecrease` | internal/retry/retry.go:113-128 | For any multiplier >= 1 the waits never decrease and never exceed MaxDelay |
| `Retry.TotalWaitBound` | internal/retry/retry.go:89-136 | All waits of a call add up to at most (MaxAttempts - 1) * MaxDelay |
| `RetryTraces.TraceIsOutcome` | internal/retry/retry.go:89-136 | Every complete sequence of the small steps that BatchRetry interleaves is an outcome of the loop in some environment: same calls, same success, same waits |
| `RetryTraces.OutcomeIsTrace` | internal/retry/retry.go:89-136 | Every outcome of the loop in every environment is such a sequence |
| `BatchRetrying.ExactlyOnce` | internal/retry/retry.go:162-205 | For every failure pattern, cancellation point and schedule: on return each item was stored exactly once and never dead-lettered, or the other way round |
| `BatchRetrying.ItemsConserved` | internal/retry/retry.go:162-205 | Stored and dead-lettered items together are the batch as a multiset, equal items included |
| `BatchRetrying.AtMostTenAtOnce` | internal/retry/retry.go:177-185 | Never more than 10 items are being retried |
| `BatchRetrying.CallBound` | internal/retry/retry.go:167-189 | Never more than MaxAttempts * (n + 1) store calls |
| `BatchRetrying.DeadLetterReports` | internal/retry/retry.go:187-199 | In every reachable state a dead letter names its item and reports how often that item's own insert was called, or MaxAttempts when that is negative |
| `BatchRetrying.StepLowersRank` | internal/retry/retry.go:162-205 | Every step lowers a natural number, so every schedule ends |
| `BatchRetrying.Progress` | internal/retry/retry.go:177-205 | Until BatchRetry returns some goroutine can move: the semaphore never blocks everybody |
| `BatchRetrying.BatchRetry` | internal/retry/retry.go:162-205 | A call under an arbitrary scheduler is a complete run of the system and appends exactly its failures, with their attempt counts, to the dead-letter queue |
| `RetryRefinement.StepRefines` | internal/retry/retry.go:162-205 | Every step of a BatchRetry call is the flush step its image names, or none, and the flush can take it: batch success is the insert of the batch, batch loss the turn to items, an item's success its insert, a lost item its burial with the attempts it reports |
| `RetryRefinement.CallRefines` | internal/queue/event_queue.go:332-339 | Every schedule of a call, from its start, is a run of the pipeline with the same events stored and left and the same dead letters, attempts included |
| `RetryRefinement.CallRefinesInterleaved` | internal/queue/event_queue.go:332-339 | When the flush moves by the image of each step of the call, and producers, the write loop and Shutdown move in between in any order, the flush stays where the call is |
| `RetryRefinement.CallNeverHeldUp` | internal/queue/event_queue.go:332-339 | Every step the call can take, the flush can take with it, so the interleaved system covers every schedule |
| `RetryRefinement.CallStarts` | internal/queue/event_queue.go:330-339 | Reading the queue length puts the flush where a new call is |
| `RetryRefinement.CallEnds` | internal/queue/event_queue.go:339-342 | When the call has returned the flush can go on to measure the queue |
| `Persistence.PendingStore.Write` | internal/queue/persistence.go:98-124 | A closed store refuses; otherwise a put is attempted and, if it commits, only the event's own key changes |
| `Persistence.PendingStore.Remove` | internal/queue/persistence.go:191-223 | A closed store refuses; an empty list does nothing; otherwise one transaction is attempted, and only given ids leave the bucket, none if it fails |
| `Persistence.PendingStore.Recover` | internal/queue/persistence.go:156-189 | Fails exactly when the store is closed or unreadable; otherwise every pending event that can be decoded is listed once |
| `PersistenceProtocol.NeverPanics` | internal/queue/persistence.go:127-147 | In every interleaving of EnqueueAsync, Remove, reading calls, Close and the write loop: no send on the closed write channel, no second close of it, no bolt operation after the database is closed; whoever is about to use the channel or the database finds it open |
| `PersistenceProtocol.ExactlyOneReply` | internal/queue/persistence.go:95-147 | A reply channel gets at most one reply and is closed at most once, after it; when the write loop has gone every request made has had exactly one of each |
| `PersistenceProtocol.LoopOutlivesDatabase` | internal/queue/persistence.go:252-273 | The database is closed only after the write loop has gone |
| `PersistenceHistory.PutIffOpen` | internal/queue/persistence.go:98-123 | In every run, a request the write loop has answered was put exactly once if the store was open when the loop read the flag for it, and never otherwise |
| `PersistenceHistory.AnsweredWasDecided` | internal/queue/persistence.go:98-123 | In every reachable state no request has been put twice, and each answered one was looked at and put exactly if it was then found open |
| `PersistenceHistory.RefusedWithReason` | internal/queue/persistence.go:127-147 | A request is refused by the call itself only if the call found the store closed when it read the flag, or 1000 requests waiting when it tried to hand its own over |
| `PersistenceHistory.HandedWithRoom` | internal/queue/persistence.go:127-147 | A request that was handed over found the store open and then fewer than 1000 waiting |
| `PersistenceHistory.WorkedUnlessClosed` | internal/queue/persistence.go:156-223 | A removal or a read that has returned did its bolt operation if it found the store open when it read the flag, and passed it by if it found it closed |
| `PersistenceHistory.NeverDeadlocked` | internal/queue/persistence.go:95-278 | In every reachable state in which a call is under way, or a request waits or is being worked on, some goroutine can move |
| `Snowflake.PackIsSum` | internal/snowflake/snowflake.go:83-93 | Every id is a signed 64-bit word; for timestamps of 41 bits and a sign it is t * 2^22 + node * 2^12 + seq, and non-negative for 0 <= t <= MaxTimestamp |
| `Snowflake.PackSum` | internal/snowflake/snowflake.go:89-91 | For every timestamp whatever, the shifts and ors add up three disjoint bit fields |
| `Snowflake.ParseUndoesPack` | internal/snowflake/snowflake.go:116-121 | Parsing an id gives back the clock reading, node and sequence |
| `Snowflake.PackUndoesParse` | internal/snowflake/snowflake.go:116-121 | Packing what was parsed gives back the id, for every word and every epoch |
| `Snowflake.DefaultRoundTrip` | internal/snowflake/snowflake.go:104-109 | The same for Parse and the default epoch |
| `Snowflake.NewWithEpoch` | internal/snowflake/snowflake.go:47-58 | A generator is created for exactly the node ids 0..1023, with nothing issued |
| `Snowflake.Generator.Generate` | internal/snowflake/snowflake.go:60-94 | One call reads the clock as often as the specification says and answers and changes state accordingly; backward clocks, sequence wrap and overflow included |
| `Snowflake.ReturnsIff` | internal/snowflake/snowflake.go:70-76 | A call returns if and only if it need not wait or the clock eventually passes lastTime |
| `SnowflakeNumbers.ReplyIs` | internal/snowflake/snowflake.go:60-94 | A call that returns gives an id exactly when its first reading is not behind the last id's and its last one is within 41 bits of the epoch; the other two cases give the two errors; only a call that is not behind moves the generator |
| `SnowflakeNumbers.NumbersAreRanks` | internal/snowflake/snowflake.go:70-79 | In every run of any fleet, the k-th id of a generator in a millisecond, from 0, carries sequence k (in millisecond 0, which a new generator takes for its last, k + 1) |
| `SnowflakeNumbers.IdsParse` | internal/snowflake/snowflake.go:116-121 | And it parses to its node, that sequence and, for epochs in 0..2^41, its millisecond |
| `SnowflakeNumbers.MillisecondGives` | internal/snowflake/snowflake.go:70-79 | For every node, epoch and millisecond in reach, and every n up to 4096: a run that issues n ids in that millisecond, numbered 0 to n - 1 |
| `SnowflakeNumbers.Widths` | internal/snowflake/snowflake.go:9-22 | The three maxima are those of 10, 12 and 41 bits; the default epoch is the start of 2024 |
| `SnowflakeFleet.StrictlyIncreasing` | internal/snowflake/snowflake.go:60-94 | In every run, with any clocks, the ids of a generator with a good epoch are strictly increasing |
| `SnowflakeFleet.IncreasingIffGoodEpoch` | internal/snowflake/snowflake.go:83-93 | All runs of a generator have strictly increasing ids if and only if its epoch is in 0..2^41 or is -2^41; the default epoch is |
| `SnowflakeFleet.BadEpochRun` | internal/snowflake/snowflake.go:83-93 | For every other epoch, a run whose second id is smaller than its first |
| `SnowflakeFleet.NeverCollide` | internal/snowflake/snowflake.go:47-58 | Generators with distinct nodes never return the same id, in any interleaving, with any epochs and clocks |
| `SnowflakeFleet.AllUnique` | internal/snowflake/snowflake.go:60-94 | All ids of such a fleet with good epochs are different |
| `SnowflakeFleet.TimeOrdered` | internal/snowflake/snowflake.go:83-93 | With a shared good epoch an id of an earlier millisecond is below any id of a later one, whatever nodes, sequences and order of issue |
| `SnowflakeFleet.AtMost4096PerMillisecond` | internal/snowflake/snowflake.go:70-79 | A generator issues at most 4096 ids with the same millisecond |
| `BatchInserting.BatchIsOneByOne` | internal/stores/event_store.go:196-263 | A batch succeeds if and only if inserting its events one at a time does, and then leaves the same rows, type table, id sequence and type cache |
| `BatchInserting.SuccessIsOneByOne` | internal/stores/event_store.go:196-263 | The same for a batch that succeeded although statements could have failed |
| `EventStores.BatchSucceedsIff` | internal/stores/event_store.go:196-263 | A batch succeeds if and only if every event has a type of 1..255 characters, a new id, a known user and metadata that is JSON or missing, and no two share an id |
| `EventStores.BatchRows` | internal/stores/event_store.go:230-259 | A successful batch adds exactly the ids of its events; each row has the event's user, the table's id for its type, and the event's metadata or {} when that is empty; all other rows stay; a failed batch adds none |
| `EventStores.CreateRows` | internal/stores/event_store.go:153-190 | A create adds a row exactly when it succeeds, under the generated id, with the given user, the table's id for the type, and the given metadata or {} when that is empty |
| `EventStores.CreateSucceedsIff` | internal/stores/event_store.go:153-190 | A create succeeds if and only if the type name is at most 255 characters, an id was generated and is new, the user exists and the metadata is JSON or missing |
| `EventStores.WarmLoads` | internal/stores/event_store.go:105-124 | The warm-up makes the cache the whole table, once; one that breaks off adds what it had read, and the table does not change |
| `EventStores.TypeNumbers` | internal/stores/event_store.go:126-151 | A new name gets the next number of the sequence; a number is drawn exactly when the cache does not know the name; nothing else enters table or cache |
| `EventStores.ResolveFirsts` | internal/stores/event_store.go:210-228 | Looking up each type once, at its first occurrence, has the same effect and the same failure as looking up every event's type |
| `EventStores.InsertAllIff` | internal/stores/event_store.go:230-259 | The insert statement succeeds exactly when ids are new and distinct, foreign keys exist and metadata is JSON |
| `EventStores.RunKeeps` | internal/stores/event_store.go:105-151 | Over every run of batch inserts, creates, inserts and type look-ups, failing ones included: the cache agrees with the table, distinct names have distinct ids, no name changes its id and no row its contents |
| `EventStoreImpl.EventStore.BatchInsert` | internal/stores/event_store.go:196-263 | The program with its map, name list and column arrays does what the specification says, for every fault; on success each row has the event's user, the table's type id, and its metadata or {} when that is empty |
| `EventStoreImpl.EventStore.UniqueTypes` | internal/stores/event_store.go:210-220 | The first loop refuses exactly the batches with an empty type and lists first occurrences |
| `EventStoreImpl.EventStore.TypeIds` | internal/stores/event_store.go:222-228 | The second loop resolves the names in order, stops at the first failure, and its map agrees with the cache |
| `EventStoreImpl.EventStore.Columns` | internal/stores/event_store.go:235-254 | The column arrays, read in parallel, hold each event's id, user, its type's id, and its metadata or {} when that is empty |
| `EventStoreImpl.EventStore.GetOrCreateTypeID` | internal/stores/event_store.go:126-151 | The id returned is the table's and the cache's, and no other name's id changes; there is none exactly for a name not cached that is too long or whose query failed |
| `EventStoreImpl.EventStore.WarmTypeCache` | internal/stores/event_store.go:105-124 | The cache gains the rows the query returned, all of them unless it broke off |
| `EventStoreImpl.EventStore.CreateEventWithType` | internal/stores/event_store.go:153-190 | The row appears exactly on success, under the generated id, with the given user, the table's type id, and the given metadata or {} when that is empty; every failure adds none and keeps the store consistent |
| `EventStoreImpl.EventStore.InsertEventWithID` | internal/stores/event_store.go:265-281 | Succeeds exactly when id, type, user and metadata satisfy the schema and the statement does not fail; exactly then a row appears under the id, with the given user and type id and the given metadata, or {} when that is empty |
| `Pagination.ParseFromRequest` | pkg/pagination/pagination.go:19-36 | The page is in 1..2^63-1 and the limit in 1..100, whatever the arguments |
| `Pagination.ParsePrinted` | pkg/pagination/pagination.go:19-36 | Every page and limit in range can be asked for; other numbers give the default or the cap |
| `Pagination.ParseUnreadable` | pkg/pagination/pagination.go:19-36 | An argument that is missing or not a number gives the default |
| `Pagination.PagesAreList` | internal/stores/event_store.go:38-76 | For every positive limit, pages 1 to ceil(total/limit) are the whole list, in order, with no gap or repeat |
| `Pagination.PagesAnswered` | internal/stores/event_store.go:38-76 | Each of these pages is answered by the database, for every list a count can report |
| `Pagination.PageIsIntendedIff` | internal/stores/event_store.go:38-39 | The page query answers with the intended slice if and only if the offset is below 2^63, which is what the database takes, and (page-1)*limit is below 2^64 or the wrapped offset is past the list |
| `Pagination.FarPageRepeatsFirst` | internal/stores/event_store.go:38-39 | A page the parser can return, past the end of any non-empty list, that shows the first page again |
| `Pagination.NewestFirst` | internal/stores/event_store.go:57-72 | With one generator's ids, the list of any of the ids it issued is in reverse order of generation, whatever its clock did |
| `Pagination.ListingUnique` | internal/stores/event_store.go:59-60 | A set of ids has one descending listing |
| `Repository.PagesOfStore` | internal/stores/event_store.go:38-94 | The total is the length of the list (no row is lost in the join) and the pages it announces are the list, for all events or one user's |
| `Repository.FullListIs` | internal/stores/event_store.go:44-72 | The list holds every row of the user, or of all users, once, the larger id first, each with its own id, its stored user, type id and metadata, and the name of its type |
| `Repository.AnswerIs` | internal/stores/event_store.go:38-94 | An uncached read answers with the page and limit asked for, the length of the list, and at most limit stored rows as they are, larger ids first, of the user asked for |
| `Repository.NewestEventsFirst` | internal/stores/event_store.go:57-72 | With one generator's ids, the list of all stored events and that of any user's are in reverse order of generation, events never stored or of others passed over |
| `CacheKeys.EventsKeyInjective` | internal/cache/cache.go:268-276 | Equal page keys mean equal page, limit and user |
| `CacheKeys.StatsKeyInjective` | internal/cache/cache.go:278-298 | For times of any year and offset, stats keys are equal if and only if both times agree to the second, their offsets agree to the minute with UTC told apart, and the types agree |
| `CacheKeys.EventTypeIdKeyInjective` | internal/cache/cache.go:300-304 | Equal type keys mean equal names |
| `CacheKeys.EventsKeyFormat` | internal/cache/cache.go:268-276 | A page key is events:page:P:limit:L:user:U with U the user or all |
| `Decimals.PrintIs` | internal/cache/cache.go:268-276 | The text of a number in a key is its decimal digits with none in front to spare, after a minus sign for negative numbers only |
| `CacheKeys.StatsKeyFormat` | internal/cache/cache.go:278-298 | A stats key is stats:from:F:to:T:type:N with RFC 3339 times and nil for what is missing |
| `CacheKeys.PatternsAreFamilies` | internal/cache/cache.go:306-316 | `events:*` and `stats:*` match exactly the keys that begin with `events:` and `stats:` |
| `CacheKeys.FamiliesApart` | internal/cache/cache.go:306-316 | The events pattern matches every page key and no type key, whatever the name; the stats pattern matches neither |
| `CacheKeys.StatsFamilyApart` | internal/cache/cache.go:306-316 | The stats pattern matches every stats key, the events pattern none |
| `RepositoryImpl.Cache.DeleteByPattern` | internal/cache/cache.go:225-266 | Whatever order and repetitions the scan reports, deleting by hundreds removes exactly the matching keys |
| `RepositoryFresh.CachedReadsAgree` | internal/repositories/event_repository.go:208-260 | In every run of cached reads, creates, inserts, type look-ups and expiry, a cached read returns what an uncached one would; it succeeds exactly when the page is cached or both queries answer and the offset is one the database takes |
| `RepositoryFresh.FreshInEveryRun` | internal/repositories/event_repository.go:134-200 | In every such run every cached page and every cached type id is what the store holds now |
| `RepositoryFresh.FlushStaleIff` | internal/repositories/event_repository.go:184-186 | After a queue flush, a page that was right is still right if and only if no flushed event belongs to its user |
| `RepositoryFresh.CreateClears` | internal/repositories/event_repository.go:134-144 | After a create that succeeded no key beginning with events: or stats: is left and every other key keeps its entry; after one that failed every key does |
| `RepositoryFresh.InsertClears` | internal/repositories/event_repository.go:175-182 | The same for an insert |
| `RepositoryFresh.ReadIsRemembered` | internal/repositories/event_repository.go:208-260 | A page that was read is answered the same the next time, with no query |
| `RepositoryFresh.ReadLeavesOthers` | internal/repositories/event_repository.go:208-260 | Reading a page changes no other cache entry |
| `RepositoryFresh.TypeIsRemembered` | internal/repositories/event_repository.go:150-173 | A type id that was looked up is the table's, and is answered the same the next time whatever fails |
| `Repository.InvalidatedIs` | internal/repositories/event_repository.go:188-200 | With a cache, an invalidation removes exactly the keys beginning with events: or stats:; without one it does nothing |
| `RepositoryImpl.CachedEventRepository.GetPaginatedCached` | internal/repositories/event_repository.go:208-260 | A cached read keeps the cache right and returns the store's answer; a failing page or count query gives an error and caches nothing |
| `RepositoryImpl.CachedEventRepository.CreateEventWithType` | internal/repositories/event_repository.go:134-144 | A create keeps the cache right, clearing both families if and only if it succeeded |
| `RepositoryImpl.CachedEventRepository.InsertEventWithID` | internal/repositories/event_repository.go:175-182 | The same for an insert |
| `RepositoryImpl.CachedEventRepository.GetOrCreateTypeID` | internal/repositories/event_repository.go:150-173 | A type look-up keeps the cache right |
| `RepositoryImpl.CachedEventRepository.InvalidateCaches` | internal/repositories/event_repository.go:188-200 | Both families are cleared, all other keys stay |

## Left out

- HTTP handlers, router, middleware, `main` and configuration: request plumbing.
- The stats query (`internal/stores/stats_store.go`): its logic is in SQL.
- PostgreSQL, Redis and bbolt internals: tables, cache and bucket are maps; that varchar silently drops excess trailing blanks of a type name, and row timestamps, are not modelled.
- JSON encoding: an entry is stored and read back unchanged; corrupt cache entries are not modelled.
- Logging, `GetStats`, hit and miss counters, `DefaultRetryable`, `MustGenerate`, `ParseTime` and `ParseTimeWithEpoch`: easy members.
- The repository's `GetPaginated`, which differs from `GetPaginatedCached` only in decoding what it finds.
- `singleflight`: its function body is run directly; the cache model is sequential, so overlapping misses and a write between a miss and its fill are not covered.
- Redis commands that fail, and the 50 ms limit on invalidation.
- The second call of `Shutdown`, which only returns an error, and the locks `GetStats` of the write-ahead store takes twice.
- Liveness under the Go scheduler: that a `BatchRetry` call always ends, that the flush loop, a call and the write-ahead store are never stuck, and when the wait in `Generate` ends are proved; fairness is not modelled.
- Pipeline: whether a store insert succeeds does not depend on the rows that are there, so an event recovered after it was stored may be inserted again or dead-lettered; both are runs of the model.
- Retry.WithRetry: delays are computed over the reals and truncated; rounding of float64 is not modelled.
- EventQueues.EventQueue.Enqueue: the put is made before the call goes on; that it happens later, in the write loop, or not at all when the write buffer is full, is in Pipeline.
- CacheKeys.PatternsAreFamilies: the matcher knows literals, `*` and `?`; brackets and escapes of Redis patterns, which the two patterns do not use, are not modelled.
