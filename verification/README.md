# Verified models of the AI platform's core logic

A Dafny 4.11 project that models the parts of the platform where a mistake is hardest to see, and
proves what they promise for every input, every run or every reachable state. `dafny verify
dfyconfig.toml` checks everything.

| modules | what they model |
|---|---|
| `PartitionedTable`, `UsageEvents` | range-partitioned tables, and the nightly transaction that turns every partition of `usage_events` into IST days |
| `MonthlyRollover` | calendar months, and the transaction that creates the month partitions of `daily_usage` |
| `DailyRollup`, `UsageLedger` | the group-by of one day, its upsert and stale-row delete, and `daily_usage` under every interleaving of rollups, backfill checks, backfill writes and undos |
| `BackfillRows` | the rows of one backfilled day, from Prometheus samples |
| `KafkaConsumer`, `ConsumerLoop`, `ConsumerHistory` | offsets, fence and ownership of a consumer group, the two commit modes, the loop around the client, and everything that can happen to one process over time |
| `Failover`, `LlmChains` | the Orchestrator's failover loop, and the three chains of the LLM proxy |
| `Guardrail`, `Masking` | token substitution in texts, and masking of a message list under one mapping |
| `Ner` | word spans, BPE groups and tag alignment |
| `Tts`, `TtsAudio` | text chunking, and expansion and merging of the chunks |
| `Revisions` | the migration check's revision graph |
| `HttpStatus` | from an exception's cause chain to status and detail |
| `Options`, `Ordering`, `Sequences`, `Finite`, `Decimals`, `Texts` | what the others share |

Code that changes things step by step is a method (or a class with fields) proved against a
specification function; the promises are lemmas about that function.

## What the proofs rest on

- Postgres keeps DEFAULT free of rows that belong to another partition, refuses a name or a range
  that is taken, and applies a transaction wholly or not at all (`PartitionedTable.Legal`,
  `CreatePart`). Tables are lists of partitions; a partition's rows are a list, so that an insert's
  effect is exact, and conservation is stated on multisets.
- `daily_usage.source` defaults to `'rollup'` and `updated_at` to `now()` on insert; the unique key
  treats NULLs as equal. The transaction clock strictly increases from one rollup transaction to the
  next; a rollup that finds its advisory lock taken, or that raises, is no step at all.
- One lookback setting is shared by rollup and backfill and does not change, and a nightly run does
  not span IST midnight. Without the last assumption a day can be mixed:
  `UsageLedger.LateRollupMixesADay` gives the history, `RollUpMixesExactly` the exact condition.
- The two partition jobs take the names of unrelated relations as a set. A day's partition name is
  the abstract name `Slot(k)`, a scratch name `Convert(i)`; rendering them as text is not modelled. The
  order of conversion, by name in the code, is any reordering of the partitions to convert.
- `KafkaConsumer.AtMostOneOwner` is about a coordinator that hands a partition out only after its
  holder's revoke or lost callback, and follows from that directly. The offset results do without it: a
  partition may have a new owner while the old one has not been told yet.
- In `ConsumerHistory` rebalance callbacks run while the client fetches, so a partition does not come
  back while messages of it from before are still in hand; and the group's other processes leave
  nothing out of what they commit.
- The Kafka client runs with `enable.auto.offset.store` off, as
  services/kafka-consumers/bootstrap/config.py:198 sets it.
- Python's dates run from the year 1 to the year 9999. A stray row dated outside them, which Postgres
  stores, fails a run of partition maintenance (`UsageEvents.InCalendar`); partition bounds are dates.
- The masking engine gives each message as the pieces it found; entity types contain no `<` or `>`.
- Lower-casing maps single characters to single characters.
- Durations and money are reals.

## Where the code and its words differ

- services/kafka-consumers/bootstrap/consumers.py:301 says PER_MESSAGE cannot commit past a failed
  message. It can: a loop that goes on past one commits past it in both modes
  (`PerMessageCommitsPastAFailure`). Exactly when a loop is safe can be told from what it did itself:
  among the messages a commit covers, none was recorded after one of its own partition that was passed
  over (`ConsumerLoop.LoopIsSafeExactly`, for both modes). The mode only decides which messages count.
- The same docstring ends a partition's part of the *chunk*. That is not enough: the next fetch goes
  on after the failed message (`RuleOutlivesTheChunk`). Over consecutive chunks of an assignment the
  condition spans them (`ConsumerLoop.LoopRunIsSafeExactly`), and an assignment in between starts it
  anew (`ConsumerHistory.HistoryIsSafeExactly`).
- services/kafka-consumers/consumers/payperuse_consumer/main.py:142-144 calls breaking a chunk off at
  the deadline free, because the next fetch returns the rest. It does not: the client's position is
  already behind the chunk, so the rest comes back only after a restart or a new assignment, and only if
  no later message of those partitions was recorded before (`ConsumerLoop.AbandoningIsNotFree`; the short
  histories `ConsumerHistory.TheNextFetchGoesOn` and `AnAssignmentBringsItBack`). Within one chunk the
  loop always stops in time (`OneChunkStopsInTime`).
- The same loop also commits past a message its handler has given up after the last attempt, as its
  comment says; in `ConsumerLoop` such a message counts as processed, in `ConsumerHistory` it does not.
  There, with a commit after every message, a message is lost exactly when one is recorded behind
  another that was passed over since the last assignment, or after its own handler gave up
  (`PerMessageLosesExactly`, `GivingUpLosesTheMessage`).
- That loop sets flush on the chunk's last message only; passing over that one leaves a PER_BATCH chunk
  unflushed. The two modes then agree exactly as `ConsumerLoop.LoopModesAgreeExactly` says.
- The ARCHITECTURE.md and README.md of services/kafka-consumers say `enable.auto.offset.store` is
  not set; the code sets it to False.
- The Orchestrator's rule that no payload group is billed twice fails when a service answers with
  None after billing: the loop takes None for a failure and goes on
  (`BilledTwiceForOneAnswer`), and this is the only way it fails (`EmptyAnswersDoubleBillExactly`). No task
  service in the repository returns None; only the `Any` in the method's return type allows it.
- A stream is always reported as 200, so an upstream that answers 201 or 302 reads differently
  through the streaming entry point than through the other two (`ModesAgreeExactly`,
  `CreatedReadsAsOk`).
- The multipart entry point never labels a request with the model of the requested service when that
  service answers itself (`LabelNamesServerExactly`, `MultipartStaysUnlabelled`).
- A partition that already carries a scratch name `ue_convert_i` can make partition maintenance fail:
  when another is renamed to it first, or when it would be renamed to its own name
  (`ScratchNameCollision`, in every order; `RenameOrderMatters`). The run commits exactly when the names
  it needs are free at their turn; no order can fail exactly when none of the partitions to convert
  carries a name the run gives out (`RenamesFreeInEveryOrder`).
- A cyclic revision graph can be reported as "chain intact" with no head at all
  (`CycleIsCalledIntact`).
- A message whose own text, outside the detected values, shows a token of the request is not restored
  by unmasking (`LiteralTokenNotRestored`). Where a token shows only once detected values are put back, the
  order of the table decides (`TheOrderDecides`); `MessageRestoredExactly` says when every order restores
  the message, `MessageRestoredInOrderExactly` when a given one does.

## Model

| member | source | states |
|---|---|---|
| `PartitionedTable.CreateSlots` | services/pyjob/jobs/daily_usage_consolidation.py:215-221 | creating partitions succeeds exactly when every name and range is free at the start, although each creation changes the table for the next; no row is touched |
| `PartitionedTable.InsertRowsExact` | services/pyjob/jobs/daily_usage_consolidation.py:223-238 | an insert through the parent appends each row to the one partition holding its key, in order, and adds exactly those rows to the table |
| `UsageEvents.SplitConservesRows` | services/pyjob/jobs/daily_usage_consolidation.py:139-154 | day partitions and partitions to convert together hold every row, each once |
| `UsageEvents.ConvertOthers` | services/pyjob/jobs/daily_usage_consolidation.py:191-201 | in whatever order the partitions are taken, detaching and renaming fails exactly when a scratch name is taken at its turn; otherwise the day partitions stay, and the rows and days of the others are collected |
| `UsageEvents.Restore` | services/pyjob/jobs/daily_usage_consolidation.py:223-238 | every row restored finds a partition, also without DEFAULT; none is refused or lost |
| `UsageEvents.MaintainTx` | services/pyjob/jobs/daily_usage_consolidation.py:189-241 | from any legal layout, and for any order of conversion, the transaction commits exactly when the names it needs are free at their turn and every day it reads or creates is one of Python's dates, and then rows are conserved, the layout is canonical, the wanted days exist and DEFAULT is empty; a settled table is left as it is |
| `UsageEvents.MaintainedIsSettled` | services/pyjob/jobs/daily_usage_consolidation.py:180-251 | after a run, nothing is left to do on the same day |
| `UsageEvents.SettledNeedsNothing` | services/pyjob/jobs/daily_usage_consolidation.py:191-203 | a settled table has nothing to convert and no day to create |
| `UsageEvents.IstSlots` | services/pyjob/jobs/daily_usage_consolidation.py:88-106 | an instant lies in a day's slot exactly when clocks in India, five and a half hours ahead of UTC, show a time of that day |
| `UsageEvents.IstPartitionHolds` | services/pyjob/jobs/daily_usage_consolidation.py:88-106 | a canonical partition holds exactly the instants of the day in India it is named for |
| `UsageEvents.EveryRowOnItsIstDay` | services/pyjob/jobs/daily_usage_consolidation.py:180-251 | after maintenance every row lies in the partition named for its day in India, in all its copies |
| `UsageEvents.CalendarEnds` | services/pyjob/jobs/daily_usage_consolidation.py:173-177 | the first and the last day are those of the years 1 and 9999, by the Gregorian leap years |
| `UsageEvents.InCalendarExactly` | services/pyjob/jobs/daily_usage_consolidation.py:196-221 | every day wanted lies between them, and the last one needs no partition, as it has no day after it |
| `UsageEvents.ScratchNameCollision` | services/pyjob/jobs/daily_usage_consolidation.py:195-198 | a legal table on which the renames collide, in every order and for every grid of days |
| `UsageEvents.RenameOrderMatters` | services/pyjob/jobs/daily_usage_consolidation.py:154 | a legal table whose conversion commits in one order and fails in the other |
| `UsageEvents.RenamesFreeInEveryOrder` | services/pyjob/jobs/daily_usage_consolidation.py:195-198 | the renames succeed in every order exactly when no scratch name the run gives out is reserved or carried by a partition to convert |
| `UsageEvents.UsageEventsTable.MaintainPartitions` | services/pyjob/jobs/daily_usage_consolidation.py:180-251 | one run: skipped without the lock, rolled back on an error; when committed, every day through the horizon has its partition, DEFAULT is empty, and each row lies in the partition of its day in India, none lost |
| `UsageEvents.UsageEventsTable.MaintainTwice` | services/pyjob/jobs/daily_usage_consolidation.py:180-251 | a second run on the same day changes nothing |
| `MonthlyRollover.AddMonthsComposes` | services/pyjob/jobs/monthly_partition_rollover.py:56-58 | adding a then b months is adding a + b, also at the calendar's ends |
| `MonthlyRollover.AddMonthsInverts` | services/pyjob/jobs/monthly_partition_rollover.py:56-58 | adding -n months undoes adding n |
| `MonthlyRollover.AddMonthsExactly` | services/pyjob/jobs/monthly_partition_rollover.py:56-58 | adding months counts twelve to a year, gives the first of the month, and fails exactly outside the years 1 to 9999 |
| `MonthlyRollover.WantedMonthsExist` | services/pyjob/jobs/monthly_partition_rollover.py:150-155 | the calendar lets a run begin exactly when its last month is a date, and lets a month be created exactly when the next one is |
| `MonthlyRollover.CanCreateExactly` | services/pyjob/jobs/monthly_partition_rollover.py:86-166 | a run can commit exactly when its last month is a date, no partition is named for a month that does not exist, and each missing month has a free name and range and a date after it |
| `MonthlyRollover.MonthRange` | services/pyjob/jobs/monthly_partition_rollover.py:65-69 | a date lies between a month's first day and the next month's exactly when it is of that month |
| `MonthlyRollover.MonthsToCreateSpec` | services/pyjob/jobs/monthly_partition_rollover.py:157-163 | the months to create are exactly those from the current one to the horizon without a partition of their name, in order |
| `MonthlyRollover.RolloverTx` | services/pyjob/jobs/monthly_partition_rollover.py:112-147 | commits exactly when the calendar and the names and ranges allow, names of months that do not exist included; exactly the created months' rows leave DEFAULT, into their own month, and no row is lost |
| `MonthlyRollover.CreateMonths` | services/pyjob/jobs/monthly_partition_rollover.py:112-147 | creating the months succeeds exactly when each is free, fills each with DEFAULT's rows of that month, and loses none |
| `MonthlyRollover.MonthPartitionHolds` | services/pyjob/jobs/monthly_partition_rollover.py:51-69 | a month's partition holds exactly the dates of that calendar month |
| `MonthlyRollover.DatedRowEndsInItsMonth` | services/pyjob/jobs/monthly_partition_rollover.py:112-147 | a row of DEFAULT dated in a created month ends in that month's partition in all its copies; any other stays |
| `MonthlyRollover.RolloverIsIdempotent` | services/pyjob/jobs/monthly_partition_rollover.py:157-166 | when every month has its partition a run creates nothing |
| `MonthlyRollover.DailyUsageTable.Rollover` | services/pyjob/jobs/monthly_partition_rollover.py:150-176 | one run: all or nothing, rows conserved, nothing left to create |
| `DailyRollup.FailedAtMostRequests` | services/pyjob/jobs/daily_usage_consolidation.py:254-293 | counting old rows by distinct correlation id never makes more failures than requests |
| `DailyRollup.RequestCountStep` | services/pyjob/jobs/daily_usage_consolidation.py:254-293 | what one more event adds to its group's request count, exactly |
| `DailyRollup.MeasuresStep` | services/pyjob/jobs/daily_usage_consolidation.py:254-293 | what one more event does to a group's row, column by column: it adds its units and costs, and counts as a request, and as failed from status 400 on, when it stands for one not counted yet |
| `DailyRollup.NoEventsMeasureNothing` | services/pyjob/jobs/daily_usage_consolidation.py:254-293 | a group of no events is zero in every column |
| `DailyRollup.AggregateKeys` | services/pyjob/jobs/daily_usage_consolidation.py:254-293 | there is a row exactly for each day, month and dimensions that some event of the day has |
| `DailyRollup.AggregateConserves` | services/pyjob/jobs/daily_usage_consolidation.py:254-293 | the day's units and costs are spread over the aggregate's rows without loss, in each of the six columns |
| `DailyRollup.AggregateIgnoresOrder` | services/pyjob/jobs/daily_usage_consolidation.py:254-293 | the aggregate depends on the rows, not on where they are stored |
| `DailyRollup.MaintenanceKeepsRollup` | services/pyjob/jobs/daily_usage_consolidation.py:388-408 | the rollup reads the same groups whether partition maintenance ran before it or not |
| `DailyRollup.RollupDay` | services/pyjob/jobs/daily_usage_consolidation.py:343-378 | upserting the groups one by one and deleting the stale rows gives the specified table, in any order of the groups |
| `DailyRollup.RollupRefinesGroupBy` | services/pyjob/jobs/daily_usage_consolidation.py:295-312 | on a day without backfill rows the result is the group-by of the day next to the untouched other days; vanished keys are gone |
| `DailyRollup.RollupConverges` | services/pyjob/jobs/daily_usage_consolidation.py:295-312 | a re-run leaves the same keys and measures |
| `DailyRollup.RollupRowsAppear` | services/pyjob/jobs/daily_usage_consolidation.py:295-312 | on a backfilled day the rollup adds rollup rows exactly when some group lands on no existing row |
| `UsageLedger.StepKeepsInv` | services/pyjob/backfill/engine.py:277-345 | every step keeps checked days out of the rollup's reach and free of rollup rows |
| `UsageLedger.NoDayIsEverMixed` | services/pyjob/backfill/engine.py:277-345 | in every reachable state no day holds rollup and backfill rows, although check and write are separate transactions |
| `UsageLedger.WritesNeverConflict` | services/pyjob/backfill/engine.py:277-288 | a write on a checked day never collides with a recorded row, however late it comes |
| `UsageLedger.ClearedForGood` | services/pyjob/backfill/engine.py:277-345 | days that passed the check stay writable and free of rollup rows, whatever happens before they are written |
| `UsageLedger.UndoErasesTheBackfill` | services/pyjob/backfill/undo.py:25-54 | undo at any point of any history leaves the table that history gives without any backfill |
| `UsageLedger.GroupByLasts` | services/pyjob/jobs/daily_usage_consolidation.py:295-312 | a day equal to the group-by of its events stays so through any later rollups, checks, writes, undos and events of other days, while in reach |
| `UsageLedger.RolledUpDayConverges` | services/pyjob/jobs/daily_usage_consolidation.py:343-378 | a day rolled up anywhere in a history ends it as the group-by of its events, whatever comes between |
| `UsageLedger.NightlyRunConverges` | services/pyjob/jobs/daily_usage_consolidation.py:388-408 | a nightly run leaves yesterday and each day it looks back to, if its transaction succeeds, equal to the group-by of that day's events, whichever others fail |
| `UsageLedger.NightStaysInReach` | services/pyjob/jobs/daily_usage_consolidation.py:399-406 | it leaves all other days, the events and the checked days as they were |
| `UsageLedger.LateRollupMixesADay` | services/pyjob/jobs/daily_usage_consolidation.py:399-406 | a history in which a nightly run past midnight mixes a day |
| `UsageLedger.RollUpMixesExactly` | services/pyjob/jobs/daily_usage_consolidation.py:295-312 | a rollup leaves no day mixed exactly when its day has no backfill rows or every group lands on one |
| `UsageLedger.UsageDatabase.Consolidate` | services/pyjob/jobs/daily_usage_consolidation.py:388-408 | the loop goes on past a failed day and a failed partition step and reports them; from the lookback's first day to yesterday every day that came through converges, and no other day changes |
| `UsageLedger.UsageDatabase.CheckDays` | services/pyjob/backfill/engine.py:301-324 | the check passes exactly for days before the rollup's reach without rollup rows; days that pass stay free of rollup rows, and whatever is written on them goes in, through every later history |
| `UsageLedger.UsageDatabase.WriteOneDay` | services/pyjob/backfill/engine.py:277-288 | only the day's backfill rows change and are then exactly the rows written, or nothing changes; the days stay unmixed, and on a checked day the write always goes in |
| `UsageLedger.UsageDatabase.UndoBackfill` | services/pyjob/backfill/undo.py:25-54 | exactly the rollup rows stay |
| `BackfillRows.WholeIsNearest` | services/pyjob/backfill/engine.py:194-195 | rounding moves a total by at most half, and a half away from zero |
| `BackfillRows.LabelExactly` | services/pyjob/backfill/engine.py:190-191 | the numeral of a positive integer is a label for it, and "0" is none |
| `BackfillRows.NoOtherLabel` | services/pyjob/backfill/engine.py:190-191 | nothing but such a numeral is a label |
| `BackfillRows.GroupExactly` | services/pyjob/backfill/engine.py:207-217 | a sample without a numeric institution has no group; an application or service that is absent or unknown is NULL |
| `BackfillRows.CountersExactly` | services/pyjob/backfill/engine.py:218-226 | the four counters are the two request queries and the two token types, by name |
| `BackfillRows.SumStep` | services/pyjob/backfill/engine.py:217-219 | one more sample adds its value to its own group's counter and to no other |
| `BackfillRows.DimsExactly` | services/pyjob/backfill/engine.py:228-245 | the tier, the application's only key, the service and the type of a group's row, each where it is known |
| `BackfillRows.Accumulate` | services/pyjob/backfill/engine.py:198-226 | the nested totals hold, per group and counter, the sum of the accepted samples, and the groups in order of first appearance |
| `BackfillRows.BuildDayRows` | services/pyjob/backfill/engine.py:198-257 | one row per group with requests or tokens, in that order |
| `BackfillRows.GroupsExactly` | services/pyjob/backfill/engine.py:198-218 | a group exists exactly when some sample with a numeric institution maps to it, unknown applications and services as NULL |
| `BackfillRows.RowKeysDistinct` | services/pyjob/backfill/engine.py:198-257 | rows of distinct groups have distinct dimension keys |
| `BackfillRows.DayRowsFitTheTable` | services/pyjob/backfill/engine.py:198-257 | the rows built for a day are all of that day and no two share a dimension key, so the insert keeps every one |
| `BackfillRows.DayRowsAreWritten` | services/pyjob/backfill/engine.py:277-345 | on a checked day the rows built are written without conflict, become the day's only rows, and touch no other day |
| `BackfillRows.RowBalances` | services/pyjob/backfill/engine.py:228-257 | successes and failures make the requests, prompt and output tokens the units, and costs are tokens times rates, for the row's own group |
| `BackfillRows.RowExactly` | services/pyjob/backfill/engine.py:222-227 | a group has a row exactly when it has requests or tokens |
| `BackfillRows.GroupingConserves` | services/pyjob/backfill/engine.py:198-226 | grouping neither loses nor repeats an accepted sample |
| `BackfillRows.DayTotalsSurvive` | services/pyjob/backfill/engine.py:190-257 | the day's emitted requests and tokens are within half a unit per group and counter of the accepted samples, skipped groups included |
| `KafkaConsumer.StepKeepsInv` | services/kafka-consumers/bootstrap/consumers.py:208-344 | every call that reaches the client, in any process, keeps stored and committed offsets behind the first unprocessed message |
| `KafkaConsumer.CommittedNeverPassesUnprocessed` | services/kafka-consumers/bootstrap/consumers.py:272-344 | over every interleaving of chunks, failures, fence drops and rebalances of the group, two holders of a partition included, no committed offset passes an unprocessed message |
| `KafkaConsumer.RestartRedelivers` | services/kafka-consumers/bootstrap/consumers.py:208-222 | then an assigned process resumes at or before every unprocessed message, and a fetch that gets past one returns it |
| `KafkaConsumer.AssignedChunkCanBeFinished` | services/kafka-consumers/bootstrap/consumers.py:208-306 | what a newly assigned process fetches it can process to the end in both modes, with every message committed and none of its partitions' messages left unprocessed before the position reached |
| `KafkaConsumer.AtMostOneOwner` | services/kafka-consumers/bootstrap/consumers.py:208-252 | with a coordinator that waits for the callbacks, at most one process holds a partition in every reachable state |
| `KafkaConsumer.OwnsExactly` | services/kafka-consumers/bootstrap/consumers.py:164-171 | owns holds exactly for partitions whose latest event was an assign, and the generation counts the callbacks |
| `KafkaConsumer.PerMessageCommitsPastAFailure` | services/kafka-consumers/bootstrap/consumers.py:296-302 | committing after every message does not protect a loop that goes on past a failure |
| `KafkaConsumer.RuleOutlivesTheChunk` | services/kafka-consumers/bootstrap/consumers.py:296-302 | ending the partition's part of one chunk is not enough |
| `KafkaConsumer.ModesAgreeAtChunkEnd` | services/kafka-consumers/bootstrap/consumers.py:282-306 | a fully processed chunk ends with the same committed offsets in both modes |
| `KafkaConsumer.BatchedIsNeverAhead` | services/kafka-consumers/bootstrap/consumers.py:282-306 | at every prefix the batched offsets are no further than the per-message ones |
| `ConsumerLoop.LoopIsSafeExactly` | services/kafka-consumers/bootstrap/consumers.py:282-306 | in either mode, after any part of a chunk, no committed offset passes an unprocessed message exactly when, among the messages a commit covers, none was recorded after one of its partition that was passed over |
| `ConsumerLoop.LoopRunIsSafeExactly` | services/kafka-consumers/consumers/payperuse_consumer/main.py:102-169 | the same over the consecutive chunks of one assignment, where the condition spans the chunks |
| `ConsumerLoop.FetchesLeaveNoGap` | services/kafka-consumers/bootstrap/consumers.py:262-270 | consecutive fetches give messages in order with nothing missing below any of them, as these results ask |
| `ConsumerLoop.AbandoningIsNotFree` | services/kafka-consumers/consumers/payperuse_consumer/main.py:139-152 | once a later message of its partition is recorded, in whatever chunk, an abandoned message is lost |
| `ConsumerLoop.ServeChunk` | services/kafka-consumers/consumers/payperuse_consumer/main.py:118-166 | the loop records exactly the owned, usable messages up to the first it would take up after the deadline, leaves the client and broker of that record, and bills those of them whose handler did not give up |
| `ConsumerLoop.BreaksExactly` | services/kafka-consumers/consumers/payperuse_consumer/main.py:139-157 | the chunk is broken off at the first owned, usable message met after the deadline, and nowhere else |
| `ConsumerLoop.OneChunkStopsInTime` | services/kafka-consumers/consumers/payperuse_consumer/main.py:118-166 | within one chunk the shipped loop never records past a message it must not |
| `ConsumerLoop.LoopModesAgreeExactly` | services/kafka-consumers/consumers/payperuse_consumer/main.py:118-166 | when the loop passes over messages, fence drops included, the modes agree exactly if it records the last one or none |
| `ConsumerLoop.HandleWithRetry` | services/kafka-consumers/consumers/payperuse_consumer/main.py:219-253 | the handler is tried until the first success, at most three times; given up exactly when all three fail |
| `ConsumerHistory.HistoryIsSafeExactly` | services/kafka-consumers/bootstrap/consumers.py:208-344 | over every history of assignments, revocations, fetches, handled, given up and passed over messages, commits and other processes' work: a committed offset passes a message that was not dealt with exactly when a commit was made while a stored offset came from a message recorded behind one passed over since its partition was last assigned, or given up itself |
| `ConsumerHistory.PerMessageLosesExactly` | services/kafka-consumers/consumers/payperuse_consumer/main.py:102-169 | with a commit after every message: exactly when such a message is recorded at all |
| `ConsumerHistory.GivingUpLosesTheMessage` | services/kafka-consumers/consumers/payperuse_consumer/main.py:237-247 | a history in which a handler that gives up loses its message |
| `ConsumerHistory.TheNextFetchGoesOn` | services/kafka-consumers/consumers/payperuse_consumer/main.py:139-152 | a history in which a chunk is broken off and the next one loses what was left |
| `ConsumerHistory.AnAssignmentBringsItBack` | services/kafka-consumers/bootstrap/consumers.py:208-222 | the same with an assignment in between, which loses nothing |
| `KafkaConsumer.ManagedConsumer.OnAssign` | services/kafka-consumers/bootstrap/consumers.py:208-222 | the assigned set grows by the new partitions, which resume at the committed offset |
| `KafkaConsumer.ManagedConsumer.DropPartitions` | services/kafka-consumers/bootstrap/consumers.py:248-252 | the partitions and what was stored for them are gone, and nothing is committed |
| `KafkaConsumer.ManagedConsumer.RecordProcessed` | services/kafka-consumers/bootstrap/consumers.py:282-306 | the message is stored in both modes; the broker moves only if the mode or flush says so |
| `KafkaConsumer.ManagedConsumer.RecordChunk` | services/kafka-consumers/bootstrap/consumers.py:282-306 | one loop, correct under both modes |
| `Failover.RunWithFallbacks` | services/inference-service/orchestrator/orchestrator.py:169-214 | without failover the requested service's answer or error is the result of its one call; otherwise result, calls and log are those of the first fallback that decides |
| `Failover.TriedExactly` | services/inference-service/orchestrator/orchestrator.py:191-214 | the error names the requested service and the fallbacks reached, skipped ones included, in order |
| `Failover.AttemptsExactly` | services/inference-service/orchestrator/orchestrator.py:192-204 | of the fallbacks reached, those that resolve, that the caller may use and that have a class are called, once each and in order |
| `Failover.ReasonExactly` | services/inference-service/orchestrator/orchestrator.py:192-230 | the reason at hand is that of the service called last, and the requested one's before any |
| `Failover.LogExactly` | services/inference-service/orchestrator/orchestrator.py:192-194 | one log entry for each fallback reached, with the reason at hand |
| `Failover.ServedExactly` | services/inference-service/orchestrator/orchestrator.py:187-214 | a fallback serves exactly when it answers and every eligible one before it was unreachable with nothing billed |
| `Failover.AllUnavailableExactly` | services/inference-service/orchestrator/orchestrator.py:206-214 | AllServicesUnavailableError in exactly the remaining case |
| `Failover.NoDoubleBilling` | services/inference-service/orchestrator/orchestrator.py:187-230 | every attempt but the last billed nothing, so no group is billed by two services |
| `Failover.EmptyAnswersDoubleBillExactly` | services/inference-service/orchestrator/orchestrator.py:204-208 | over the requested service and every fallback reached: two attempts bill exactly when a fallback billed an empty answer and a later one billed as well, whatever it returned |
| `Failover.BilledTwiceForOneAnswer` | services/inference-service/orchestrator/orchestrator.py:204-208 | a request billed by a fallback that answers None and by the next one |
| `Failover.Route` | services/inference-service/orchestrator/orchestrator.py:117-157 | a denied request calls nothing; the requested service's answer or error is handed on; the request is labelled with the service that served it, and with the requested one otherwise |
| `LlmChains.LlmProxy.RunFallbackChain` | services/inference-service/services/llm_service.py:392-424 | the buffered chain gives the declared status, reply, label, serving service, calls and log |
| `LlmChains.LlmProxy.ProxyStreamWithFallbacks` | services/inference-service/services/llm_service.py:810-847 | so does the streaming chain, and it returns the service whose spans the stream gets |
| `LlmChains.LlmProxy.MultipartWithFallbacks` | services/inference-service/services/llm_service.py:1063-1104 | so does the multipart chain |
| `LlmChains.LlmProxy.ProxyTraced` | services/inference-service/services/llm_service.py:317-366 | a refused service is answered with its refusal, a payload that cannot be masked with 503, and nothing is called; otherwise the buffered chain runs under the requested model's label, and a 200 that cannot be processed becomes 500 |
| `LlmChains.LlmProxy.ProxyTracedStream` | services/inference-service/services/llm_service.py:690-766 | the same for the streaming chain, every attempt asking for the usage block |
| `LlmChains.LlmProxy.ProxyMultipart` | services/inference-service/services/llm_service.py:968-1016 | the same for the multipart chain, under whatever label was there |
| `LlmChains.CallableExactly` | services/inference-service/services/llm_service.py:190-281 | 404, 503 and 403 for a service that is unknown, that has no address, or that the caller's tier may not use; a caller without a tier and a service without tiers pass |
| `LlmChains.FailureExactly` | services/inference-service/services/llm_service.py:46-49 | the chain moves on from a transport failure and from a 5xx, and which of them it was |
| `LlmChains.AnswerExactly` | services/inference-service/services/llm_service.py:465-539 | the client gets the answering upstream's status and body: whole below 400, its detail from 400 on when buffered, a stream as 200; 502 and 503 where nothing answered |
| `LlmChains.RecordedExactly` | services/inference-service/services/llm_service.py:403-424 | label and service id of the request are those of the serving fallback, and otherwise what it came with |
| `LlmChains.LogExactly` | services/inference-service/services/llm_service.py:403-424 | one log entry for each fallback reached: skipped with its refusal, or called with the reason |
| `LlmChains.FallbackServesExactly` | services/inference-service/services/llm_service.py:403-417 | a fallback serves exactly when everything callable before it gave 5xx |
| `LlmChains.NobodyServesExactly` | services/inference-service/services/llm_service.py:418-424 | 503 exactly when fallbacks are configured and every callable service gave 5xx |
| `LlmChains.TriedIsEligibleInOrder` | services/inference-service/services/llm_service.py:541-557 | the services called after the requested one are eligible fallbacks in order, each with its own body |
| `LlmChains.EligibleWasCalled` | services/inference-service/services/llm_service.py:541-557 | every eligible fallback that was reached was called |
| `LlmChains.OnlyModelDiffers` | services/inference-service/services/llm_service.py:541-557 | every attempt carries the chain's payload, which is the client's unless masked, with the model field alone replaced: by the configured upstream name, or else by the service id |
| `LlmChains.ReasonIsLastCalled` | services/inference-service/services/llm_service.py:406-417 | the logged reason is the failure of the service called last, skipped ones passed over |
| `LlmChains.ReasonIsPrimarys` | services/inference-service/services/llm_service.py:403-417 | before any fallback was called it is the failure of the requested service |
| `LlmChains.ModesAgreeExactly` | services/inference-service/services/llm_service.py:629-688 | the three chains agree on calls, serving service and label, and on the status exactly unless a stream hides an answer below 400 other than 200 |
| `LlmChains.CreatedReadsAsOk` | services/inference-service/services/llm_service.py:629-688 | an upstream answer of 201 that the streaming client sees as 200 |
| `LlmChains.LabelNamesServerExactly` | services/inference-service/services/llm_service.py:273-278 | when the model-id label names the answering service, or the requested one when all fail |
| `LlmChains.MultipartStaysUnlabelled` | services/inference-service/services/llm_service.py:968-1016 | a multipart request answered by its own service that keeps an empty label |
| `LlmChains.IncludeUsageHonoursClient` | services/inference-service/services/llm_service.py:609-627 | asking for usage keeps every other field and option, honours the client's choice, and is idempotent |
| `Guardrail.Unmask` | services/inference-service/services/guardrail.py:373-376 | the loop over the table is the repeated replacement, in the given order |
| `Guardrail.ReplaceAround` | services/inference-service/services/guardrail.py:373-376 | str.replace around a token works on each side separately: no occurrence crosses into a token |
| `Guardrail.SequentialIsSimultaneous` | services/inference-service/services/guardrail.py:373-376 | replacing the tokens one after the other, in every order, is replacing them all at once, if the restored text shows none of them |
| `Guardrail.LiteralTokenIsLost` | services/inference-service/services/guardrail.py:373-376 | a token shown by literal text makes the restored text differ, in every order |
| `Guardrail.RestoredExactly` | services/inference-service/services/guardrail.py:373-376 | for values without an opening bracket, the text is restored in every order exactly when, the values of all other tokens put in, no token shows in literal text |
| `Guardrail.RestoredInOrderExactly` | services/inference-service/services/guardrail.py:373-376 | in one given order, exactly when no replacement finds its token in what is literal text by then, restored values included |
| `Masking.TokenIsInjective` | services/inference-service/services/pii/operators.py:14-38 | no two types or indices share a token, underscores in type names included |
| `Masking.WithValueKeepsValid` | services/inference-service/services/pii/operators.py:32-38 | a new value gets a token of its own and no earlier one changes |
| `Masking.InverseExists` | services/inference-service/services/guardrail.py:365-370 | turning the mapping around loses no entry |
| `Masking.InstanceCounterAnonymizer.Operate` | services/inference-service/services/pii/operators.py:28-38 | a known value keeps its token and changes nothing; a new one gets its type's next number and is the only entry added |
| `Masking.InstanceCounterAnonymizer.MaskMessages` | services/inference-service/services/guardrail.py:346-370 | all messages are masked under one growing mapping, each text from its last entity to its first |
| `Masking.MaskedExactly` | services/inference-service/services/guardrail.py:346-370 | a masked message is the message with every detected value, and nothing else, replaced by the token of the request's final mapping |
| `Masking.UnmaskUndoesMasking` | services/inference-service/services/guardrail.py:346-376 | every message of the request comes back, in every order of the table, if its text shows no token of the request |
| `Masking.NoBracketNoToken` | services/inference-service/services/guardrail.py:489-492 | a text without the opening bracket shows no token |
| `Masking.LiteralTokenNotRestored` | services/inference-service/services/guardrail.py:346-376 | a message showing a token outside the detected values does not come back, in any order |
| `Masking.MessageRestoredExactly` | services/inference-service/services/guardrail.py:346-376 | exactly when a message of the request comes back in every order of the table |
| `Masking.MessageRestoredInOrderExactly` | services/inference-service/services/guardrail.py:346-376 | exactly when it comes back in one given order |
| `Masking.TheOrderDecides` | services/inference-service/services/guardrail.py:346-376 | a message that comes back in one order of its two tokens and not in the other |
| `Ner.FindLandsOnWord` | services/inference-service/services/ner_service.py:65-71 | searching from the end of the word before finds the word itself |
| `Ner.BuildWordPositions` | services/inference-service/services/ner_service.py:65-71 | the loop returns the spans of the whitespace-separated words |
| `Ner.WordPositionsExact` | services/inference-service/services/ner_service.py:65-71 | the spans are maximal, in order, apart, and cover every character that is no whitespace |
| `Ner.GroupBpeTokens` | services/inference-service/services/ner_service.py:73-90 | one group per prediction that opens one, with the text of its continuations, in order |
| `Ner.PieceExactly` | services/inference-service/services/ner_service.py:73-78 | a piece that starts with "##" loses the two marks, any other is taken whole |
| `Ner.JoinedExactly` | services/inference-service/services/ner_service.py:73-78 | pieces are joined one after the other, with nothing between |
| `Ner.GroupsExactly` | services/inference-service/services/ner_service.py:80-90 | exactly the predictions with text that continue none have a group, in order, with their tag and the joined pieces up to the next that is no continuation |
| `Ner.MarkWholeWords` | services/inference-service/services/ner_service.py:106-107 | the loop over whole words never adds an assignment |
| `Ner.AlignTagsToWords` | services/inference-service/services/ner_service.py:92-108 | alignment terminates and gives each word the last group that touches it |
| `Ner.OccurrencesAreGreedy` | services/inference-service/services/ner_service.py:97-104 | occurrences are found left to right, do not overlap, and none is left out between two |
| `Ner.OccurrencesAreAll` | services/inference-service/services/ner_service.py:97-104 | nothing is left out behind the last occurrence |
| `Ner.TouchesExactly` | services/inference-service/services/ner_service.py:92-105 | a group touches a word exactly when an occurrence of its stripped text, case aside, has a position in common with it |
| `Ner.LastTouchingExactly` | services/inference-service/services/ner_service.py:92-113 | the tag is that of the last group with an occurrence touching the word, else "O" |
| `Ner.PredictTokens` | services/inference-service/services/ner_service.py:65-113 | one prediction per word, with its span, index and tag |
| `Tts.NormalizeKeeps` | services/inference-service/services/base/text_base.py:92-93 | normalizing changes whitespace only |
| `Texts.SpacesExactly` | services/inference-service/services/base/text_base.py:92-93 | the characters that split and strip take for whitespace |
| `Texts.StripExactly` | services/inference-service/services/base/text_base.py:92-93 | strip returns the text between the whitespace at its two ends |
| `Tts.NormalizeExactly` | services/inference-service/services/base/text_base.py:92-93 | normalizing keeps the words and puts one space between each two |
| `Tts.SplitPosExact` | services/inference-service/services/tts_service.py:211-219 | the cut is after the last place of the first separator that occurs, or at the limit |
| `Tts.CutIsPreferred` | services/inference-service/services/tts_service.py:211-219 | the six separators by name, in order of preference |
| `Tts.ChunkText` | services/inference-service/services/tts_service.py:203-224 | the loop terminates with the specified chunks, and its final filter drops none: while the text is over the limit a chunk is cut off at the preferred place, and both sides are stripped |
| `Tts.ChunkTextExact` | services/inference-service/services/tts_service.py:203-224 | one chunk at least, none over the limit, none empty unless the text is blank, every character kept in order |
| `TtsAudio.Expand` | services/inference-service/services/tts_service.py:51-71 | the chunk items of all items, in order, with index and duration |
| `TtsAudio.Merge` | services/inference-service/services/tts_service.py:111-126 | one waveform and one requested duration per item index, in ascending order, from that index's chunks |
| `TtsAudio.MergeUndoesExpand` | services/inference-service/services/tts_service.py:51-126 | one waveform per item, in order, of the samples of its own chunks, with the item's duration |
| `TtsAudio.Speak` | services/inference-service/services/tts_service.py:51-126 | each output is its item's text in chunks of at most 400, spoken one after the other, beside the item's duration |
| `TtsAudio.SpokenInTurn` | services/inference-service/services/tts_service.py:111-126 | waveforms are joined in the order of the chunks |
| `TtsAudio.AdjustedExactly` | services/inference-service/services/tts_service.py:131-137 | the requested number of samples, rounded down and at least one, exactly unless an empty waveform is asked for less than one sample; without a request nothing changes |
| `Revisions.CheckRevisionChains` | scripts/validate-migrations.py:156-217 | "intact" exactly when every reference resolves and at most one head exists; no error exactly when also no revision is repeated |
| `Revisions.GraphExactly` | scripts/validate-migrations.py:156-199 | the graph has the revisions of the files, each with the references of its first file |
| `Revisions.DuplicatesExactly` | scripts/validate-migrations.py:192-197 | no repetition is counted exactly when no two files have the same revision |
| `Revisions.IntactHasRootExactly` | scripts/validate-migrations.py:199-217 | an intact graph has one head over its whole history exactly when no revisions are an island |
| `Revisions.IntactAcyclicHasRoot` | scripts/validate-migrations.py:199-217 | an intact acyclic graph, merges included, has one head that reaches every revision |
| `Revisions.AddingAfterHeadKeeps` | scripts/validate-migrations.py:199-217 | a new revision after the head keeps the graph intact and acyclic and becomes its head |
| `Revisions.CycleIsCalledIntact` | scripts/validate-migrations.py:208-217 | a cyclic graph without any head that the check calls intact |
| `HttpStatus.CauseChain` | services/inference-service/utils/http_status.py:14-20 | the exception, then each one's cause, until there is none or sixteen are found, also on a cycle |
| `HttpStatus.HttpStatusFor` | services/inference-service/utils/http_status.py:23-52 | the first deciding exception within the bound gives the status; otherwise 502 exactly when a backend failure is in the chain |
| `HttpStatus.StatusExactly` | services/inference-service/utils/http_status.py:37-48 | each status by the kinds it stands for, and what decides nothing |
| `HttpStatus.BackendFailures` | services/inference-service/utils/http_status.py:49-51 | a RuntimeError or ConnectionError is a backend failure |
| `HttpStatus.DeciderIs` | services/inference-service/utils/http_status.py:36-48 | at most one exception of a chain is the first within the bound to decide |
| `HttpStatus.FindMatch` | services/inference-service/routes/inference.py:69-82 | the unbounded walk terminates at the exception that decided |
| `HttpStatus.HttpErrorFor` | services/inference-service/routes/inference.py:49-87 | the detail is the message of the very exception that decided the status, and a 502 or 500 quotes none |
| `HttpStatus.BoundLosesNothing` | services/inference-service/utils/http_status.py:14-20 | on a chain over at most sixteen exceptions, cyclic or not, the bound hides no deciding one |

## Left out

- DailyUsage lookup columns: institution, application, key and service names, budgets, task types and unit labels are functions of the key and left out of the rows.
- token_rates and load_lookups: rates and lookups are inputs of `BackfillRows`; the division that derives them is not modelled.
- RowCountMismatchError: an insert that silently drops rows does not occur in the model of Postgres, so the branch is not reached.
- Advisory-lock and ACCESS EXCLUSIVE waits, lock_timeout and temporary-table lifetimes: each transaction is one atomic step.
- LabelInt: models ASCII digits; other characters that Python's isdigit accepts make int() fail in the source.
- AddMonths: dates outside the years 1 to 9999 are the ValueError; times of day are not modelled.
- ServeChunk: which messages are usable, which attempts succeed and when the deadline passes are inputs; waiting between attempts is not modelled.
- LoopRunIsSafeExactly: the held partitions do not change over the chunks, and a message given up counts as processed; HistoryIsSafeExactly has neither limit.
- OnAssign: hooks are reduced to whether they raise, so what a hook does to the client itself is not modelled, and that the others run after one raises holds by construction.
- DropPartitions: the same holds for its hooks.
- LateRollupMixesADay: the partition step has no part in it or in any step on daily_usage; that it leaves the events alone is MaintenanceKeepsRollup.
- Consumer-group sessions: which process gets which partition, and when, is any choice the coordinator may make.
- ProxyTraced: how the guardrail masks a payload is an input; spans and token metrics are not modelled.
- ReplyIn: whether an error body has a readable detail is not modelled, only that the buffered chain reduces it.
- MaskPieces: detection, overlap resolution and merging of entities belong to the masking engine, which is not part of this model.
- process_response_text, audit logging and policy loading: direct compositions around masking and unmasking.
- MessageRestoredExactly: values with an opening bracket in them are excluded, also from MessageRestoredInOrderExactly; UnmaskUndoesMasking covers them one way.
- MonthPartitionHolds: stated for months followed by one within the calendar.
- GroupBpeTokens: picking a prediction's entity and tag among its possible fields is done before the model starts.
- AlignTagsToWords: lower-casing that changes a text's length (as Unicode's capital dotted I does) is not modelled.
- Adjusted: resampling between rates and the sample values of stretched audio are not modelled, only lengths; rounding of floating-point durations is not.
- GraphOf: starts from parsed files; reading and pattern matching are not modelled.
- HttpStatus.StatusOf: isinstance results are free, so subclass relations between the exception types are not needed.
- Caller tags of LLM requests, policy field parsing, URL and credential checks, cryptography, the web front end: plumbing, or easy to state and prove.
