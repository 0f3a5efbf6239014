# ChargeSquare pipeline: a verified model

ChargeSquare simulates a fleet of EV chargers, streams their events through Kafka, and keeps two
projections of them: an authoritative analytical one (clean topic, ClickHouse, reports, revenue
books) and a fast current-state one (Redis). This project models the parts of that pipeline where
correctness depends on how steps combine, and proves what its comments and design promise, over
all inputs, all runs and all reachable states.

| file | what it models |
|---|---|
| `Events.dfy`, `Validation.dfy` | the event and the validator |
| `Analytics.dfy` | one flush: route, deduplicate, produce, dead-letter, mark |
| `Consumer.dfy` | the worker loop around the flush: fill, flush, commit or rejoin |
| `Delivery.dfy`, `Progress.dfy` | the consumer group as a step system with every failure; nothing committed is lost, and every run can be finished |
| `CopyBound.dfy` | every extra copy on the clean topic is paid for by a fault |
| `ReplacingStore.dfy`, `EffectivelyOnce.dfy` | the landing table, its merges, `FINAL`; effectively once end to end |
| `Revenue.dfy`, `Books.dfy` | streaming rollup, daily reconciliation; the whole pipeline against a ledger |
| `CurrentState.dfy`, `Realtime.dfy` | the Redis compare-and-set register, its batches, retry, loss and reordering |
| `Naming.dfy`, `Roster.dfy` | station ids, Redis keys, the roster and the seeded registry |
| `ChargingModel.dfy`, `Simulator.dfy` | the charging physics and one simulator tick, imperative and as functions |
| `SimulatorTicks.dfy`, `SimulatorRuns.dfy`, `SimulatorEnergy.dfy`, `SimulatorReadings.dfy`, `SimulatorAccepted.dfy` | when a tick acts and what it does; what every simulator run keeps |
| `DelayHeap.dfy`, `DelayWakeup.dfy` | the delay queue: binary heap, and the wake-up protocol |
| `Uptime.dfy`, `SimulatorUptime.dfy`, `HourlyEnergy.dfy` | reports A2 and A1 against pointwise definitions, and on simulator traces |

How the outside world enters: clocks, registry snapshots, random draws and the answers of Kafka,
Redis and ClickHouse are parameters, and a theorem that does not mention one holds for all its
values. A failed produce may have written any part of its batch in any order and with repeats; a
failed mark, state update or commit may have taken effect on any part; dedup keys vanish at any moment. A
registry `View` keeps stations and tariffs apart, since the validator reads them from two
snapshots, and each message of a batch may be judged against a different view. Times are integers
(nanoseconds in the simulator, milliseconds in events); floating-point quantities are reals.

## What the proofs found

- `processor/realtime.go:57-60` says that re-applying a batch cannot corrupt state. A failed
  attempt may have applied any part of the batch, since single commands can be refused while
  others run. A complete retry then equals one application if and only if every field is safe
  (`CurrentState.RetryIff`, `Realtime.StoreRetryIff`); it is when attempts only broke off
  (`Realtime.BrokenPassesAreHarmless`), and it is not when a newer event went through without the
  STATUS_CHANGE before it (`CurrentState.SkippingThenRetryingLoses`). A retry that fails as well
  can even revive a finished session, when it re-applies a METER_UPDATE but not the SESSION_STOP of
  the same timestamp (`CurrentState.ShorterRetryRevivesSession`);
  `Realtime.StorePassChangesNothingIff` says exactly when such a pass does nothing.
- `processor/realtime.go:17-19` calls the state self-healing because the next event refreshes it.
  It heals exactly the fields written since (`CurrentState.LossHeals`); a lost status is healed by
  no event but another STATUS_CHANGE (`CurrentState.LostStatusStaysLost`).
- Effectively-once holds for all runs if and only if no two different acceptable events share an
  id (`EffectivelyOnce.EffectivelyOnceIff`); two that do lose one of them in a fault-free run
  (`EffectivelyOnce.ReusedIdLosesEvent`).
- `deploy/clickhouse/init/02_aggregates.sql:3-8` presents the rollup as one that only over-counts.
  Between the two commands of the reconciliation, and for good when the second fails and later
  runs turn to later days, the day's buckets read zero (`Revenue.DeletedDayIsRightIff`,
  `Revenue.InterruptedJobUnderstates`). A stop of the day that arrives between the commands is
  counted twice (`Revenue.SplitReconcileIsExactIff`).
- "A field holds the newest value ever sent" is true exactly when a newest writer arrives before
  anything newer (`CurrentState.FieldIsNewestIff`).
- Report A2 does not say in which order rows of one instant are read, be it changes in one
  millisecond or the carried-in row and a change exactly at the window start, nor which of two
  such rows argMax carries in. `Uptime.TieInReportIff`, `Uptime.TieAtStartIff` and
  `Uptime.CarriedTieIff` give the exact conditions under which that matters;
  `Uptime.TieAtStartCanFail` and `Uptime.CarriedTieCanFail` are seven-day outages that can be
  reported as none.

## Model

| member | source | states |
|---|---|---|
| `Validation.IsValidEventId` | processor/validate.go:182-199 | the index loop accepts exactly the texts of the form 8-4-4-4-12 hex groups, written as concatenation of groups |
| `Validation.ValidIdIsUuidText` | processor/validate.go:182-203 | the positional shape check and the grouped textual UUID form are the same set of texts |
| `Validation.RejectedIff` | processor/validate.go:51-175 | an event is rejected by a rule if and only if it is at odds with that rule and with none that comes before; each rule is said on its own |
| `Validation.AcceptedIff` | processor/validate.go:51-175 | an event is accepted, with its parsed instant, if and only if it is at odds with no rule |
| `Analytics.Deduper.SeenBatch` | processor/dedup.go:32-49 | answers align with the input ids one by one; it fails as a unit and only on a non-empty input |
| `Analytics.Deduper.MarkBatch` | processor/dedup.go:54-64 | the new key set is the old one plus the ids that were reached, all of them on success |
| `Analytics.Writers.WriteCleanBatch` | processor/producer.go:50-63 | an empty batch cannot fail; success appends the whole batch, failure any part of it; an error is reported exactly on failure |
| `Analytics.Writers.WriteDlqBatch` | processor/producer.go:84-102 | the same contract for the dead-letter log |
| `Analytics.AnalyticsHandler.RouteBatch` | processor/analytics.go:37-56 | every message becomes either a row or a letter: row j is the j-th accepted message with its event, stamp and produce time, letter j the j-th rejected one with its key, payload, rule and stamp |
| `Analytics.RoutingIsExact` | processor/analytics.go:37-56 | the increasing positions of the accepted and of the rejected messages, each message in exactly one list |
| `Analytics.AnalyticsHandler.DropRepeats` | processor/analytics.go:58-73 | the seen-set loop computes the first occurrence of every id |
| `Analytics.AnalyticsHandler.DropSeen` | processor/analytics.go:75-100 | the index-aligned filter drops exactly the ids with a live key, and nothing when the lookup failed |
| `Analytics.AnalyticsHandler.Flush` | processor/analytics.go:34-145 | clean log, dead-letter log and keys after a flush for every combination of outcomes; an error exactly when a produce fails, and then no key has changed |
| `Analytics.RoutingIsTotal` | processor/analytics.go:40-56 | every accepted message of a batch has a row, every rejected one a dead letter |
| `Analytics.RoutingIsSound` | processor/analytics.go:40-56 | every row and every dead letter comes from a message judged that way |
| `Analytics.UniqueKeepsIds` | processor/analytics.go:58-73 | in-batch dedup keeps the set of ids, repeats none, and each survivor is the first of its id |
| `Analytics.UnseenKeepsIds` | processor/analytics.go:89-100 | the cross-batch filter removes exactly the ids with a key and introduces nothing |
| `Analytics.FreshCoversBatch` | processor/analytics.go:34-100 | every message is about to be produced, already vouched for by a key, or about to be dead-lettered |
| `Analytics.FreshIsExact` | processor/analytics.go:34-100 | what reaches the clean producer, position by position: one row for each accepted message that is the first of its id in the batch and has no live key (none counts when the lookup failed), in batch order, and nothing else |
| `Analytics.MarkedIsExact` | processor/dedup.go:54-64 | after a mark a key lives if it did before, or if its id was in the batch and the mark reached it |
| `Analytics.AppendedIsExact` | processor/producer.go:46-63 | a successful write appends the batch whole and in order, then what landed besides; a failed one only what landed |
| `Consumer.AnalyticsWorker.FillBatch` | processor/consumer.go:71-87 | the batch is what waits at the positions the arrivals name, in order, up to the size cap (one at least) or the first arrival that yields nothing; an error exactly when the first yields nothing; the reason says whether the cap was reached |
| `Consumer.AnalyticsWorker.FlushBatch` | processor/consumer.go:120-133 | logs and keys after the flush, an error exactly when the produce of a non-empty output fails, and then a rejoin; it refines the steps of the step system |
| `Consumer.AnalyticsWorker.CommitMessages` | processor/consumer.go:134-136 | every message of the batch on a partition the broker reached is below its commit, and no other commit moves |
| `Consumer.AnalyticsWorker.RunOnce` | processor/consumer.go:108-138 | a turn takes exactly what waits, publishes and dead-letters it, and commits it where the broker reached; it fails exactly when nothing waits or the produce of a non-empty output fails, and then commits nothing; every turn is a run of the step system |
| `Consumer.AnalyticsWorker.Drain` | processor/consumer.go:108-138 | turn by turn without failures the worker commits everything that waits |
| `Consumer.AnalyticsWorker.Serve` | processor/consumer.go:94-141 | over any number of turns, arrivals and lost keys the delivery invariant holds and nothing below a committed offset is lost |
| `Delivery.RunKeepsInv` | processor/consumer.go:108-138 | the delivery invariant (raw log, positions, batch in hand, stage, keys, logs) survives every run of every interleaving |
| `Delivery.CommitIsBacked` | processor/consumer.go:89-93 | a commit never covers an offset whose message is not on the clean or dead-letter topic |
| `Delivery.NoLoss` | processor/analytics.go:12-19 | after every run each raw message below a committed offset has its id on the clean topic or its payload on the dead-letter topic, and a live dedup key implies a published id |
| `Delivery.FlushIsARun` | processor/analytics.go:102-145 | the four stages run back to back have exactly the effect of the flush method, and a failed one rejoins from the last commit |
| `Delivery.EnvironmentActs` | processor/consumer.go:126-133 | messages arrive at the end of their partition, an expired key is gone and no other, a rejoining worker has an empty batch and reads from the commit |
| `Progress.CanDrain` | processor/consumer.go:108-138 | from every state that satisfies the invariant and has a worker, some continuation without new messages commits the whole raw log |
| `CopyBound.CopiesArePaidFor` | processor/dedup.go:10-16 | with one worker per partition, the copies of an id on the clean topic never exceed 1 plus the faults that touched it |
| `CopyBound.FaultFreeIsExactlyOnce` | processor/analytics.go:58-100 | without faults the id of a committed valid event is published exactly once, reused ids included |
| `ReplacingStore.FinalDominates` | deploy/clickhouse/init/01_schema.sql:111-113 | FINAL has a row for every inserted key, never older than any inserted row of that key, and only rows that were inserted |
| `ReplacingStore.MergeKeepsFinal` | deploy/clickhouse/init/01_schema.sql:111-113 | dropping any superseded row leaves FINAL unchanged |
| `ReplacingStore.MergesAreInvisible` | deploy/clickhouse/init/01_schema.sql:66-68 | over every interleaving of insert blocks, in any order and with repeats, and merges, FINAL equals FINAL of everything ever inserted |
| `ReplacingStore.FinalRowsEnumerate` | deploy/clickhouse/init/01_schema.sql:111-113 | the row list of FINAL holds the survivor of every key once and nothing else |
| `EffectivelyOnce.RunKeepsProvenance` | processor/analytics.go:37-56 | with a fixed registry only sent and accepted events are ever published and only rejected payloads dead-lettered |
| `EffectivelyOnce.IdIsPublished` | processor/analytics.go:12-19 | the id of a committed event the registry accepts is on the clean topic, with no assumption on re-sends |
| `EffectivelyOnce.CommittedIsPublished` | processor/analytics.go:12-19 | when no two different acceptable events sent share an id, a committed event the registry accepts is itself on the clean topic |
| `EffectivelyOnce.ExactlyOneRowPerEvent` | deploy/clickhouse/init/01_schema.sql:55-68 | after any run, and any inserts and merges of a table that has taken in the clean topic in any order and with repeats, FINAL shows every committed valid event, no event id twice, and no row that nobody sent |
| `EffectivelyOnce.ReusedIdLosesEvent` | processor/analytics.go:58-73 | for any two different acceptable events with one id there is a fault-free run that commits both and publishes only the first |
| `EffectivelyOnce.EffectivelyOnceIff` | processor/analytics.go:12-19 | for any set of events producers may send: every run and every table history shows exactly the committed valid events if and only if no two different acceptable events of the set share an id |
| `Revenue.SumIsExact` | deploy/clickhouse/init/02_aggregates.sql:35-46 | a bucket starts at zero and each event adds its cost and one session exactly when it is a stop of that hour, operator, city, tariff and pricing |
| `Revenue.SessionsAreCounted` | deploy/clickhouse/init/02_aggregates.sql:43 | the sessions of a bucket are as many as the events that belong to it |
| `Revenue.GroupedIsSum` | deploy/clickhouse/init/02_aggregates.sql:35-46 | reading the grouped rows of a block gives every bucket the sum of its own SESSION_STOPs |
| `Revenue.GroupsAreDistinct` | deploy/clickhouse/init/02_aggregates.sql:46 | grouping yields at most one row per bucket |
| `Revenue.CollapseReads` | deploy/clickhouse/init/02_aggregates.sql:31-33 | a background merge of the summing table is invisible to a reader |
| `Revenue.StreamIsExactIff` | deploy/clickhouse/init/02_aggregates.sql:3-13 | the streaming count of a bucket is never below the exact one, and equal if and only if no stop of the bucket was superseded; then the revenue is equal too |
| `Revenue.NeverUnderstated` | deploy/clickhouse/init/02_aggregates.sql:3-8 | over every run of inserts, merges of both tables and the two commands of the job, the rollup is at least the revenue over FINAL in every bucket outside the days deleted and not yet recomputed |
| `Revenue.DeletedDayIsRightIff` | deploy/airflow/dags/ev_analytics_daily.py:134-154 | after the delete and before the recompute, whatever the traffic, a bucket of the day shows what was streamed into it since; it covers FINAL if and only if the stream does, and while no stop of it has arrived, if and only if FINAL has none |
| `Revenue.AtMostTheDeletedIsMissing` | deploy/airflow/dags/ev_analytics_daily.py:134-154 | what is missing is never more than the day held when it was deleted |
| `Revenue.InterruptedJobUnderstates` | deploy/airflow/dags/ev_analytics_daily.py:64-70 | a stop of one day and an event of the next land, the job sets out for the stop's day and its second command never comes: the rollup shows less than FINAL |
| `Revenue.SplitReconcileIsExactIff` | deploy/airflow/dags/ev_analytics_daily.py:134-154 | delete, any traffic, recompute: a bucket of the day equals revenue over FINAL if and only if no stop of the bucket arrived in between; otherwise it exceeds it by exactly those stops |
| `Revenue.OtherDaysAreUntouched` | deploy/airflow/dags/ev_analytics_daily.py:134-154 | with any traffic between the two commands, buckets of other days read as if neither command had been given |
| `Revenue.HourIsInDayIff` | deploy/airflow/dags/ev_analytics_daily.py:136-152 | the hour bucket lies in the day exactly when the timestamp does, so delete and recompute select the same events |
| `Revenue.LatestIsMaximum` | deploy/airflow/dags/ev_analytics_daily.py:64-66 | the anchor is attained by a row and bounds all of them |
| `Revenue.YesterdayIs` | deploy/airflow/dags/ev_analytics_daily.py:64-70 | the chosen day is the one before the day of the newest event, and there is none exactly when there are no instants |
| `Revenue.DayIsAView` | deploy/airflow/dags/ev_analytics_daily.py:56-70 | the day chosen depends on FINAL only, not on how far merges have got |
| `Revenue.ExactIsAView` | deploy/airflow/dags/ev_analytics_daily.py:145-154 | tables with one FINAL view have one exact revenue |
| `Revenue.ReconcileIsExact` | deploy/airflow/dags/ev_analytics_daily.py:119-154 | both commands with nothing in between make the day equal to revenue over FINAL and leave every other bucket as it was |
| `Revenue.ReconcileIsIdempotent` | deploy/airflow/dags/ev_analytics_daily.py:119-154 | a second reconciliation changes no row |
| `Revenue.Warehouse.InsertBlock` | deploy/clickhouse/init/02_aggregates.sql:35-46 | an insert block adds its own sums to every bucket and its rows to the landing table |
| `Revenue.Warehouse.DeleteDay` | deploy/airflow/dags/ev_analytics_daily.py:137-141 | the first command empties the buckets of the day and no other |
| `Revenue.Warehouse.RecomputeDay` | deploy/airflow/dags/ev_analytics_daily.py:145-154 | the second command adds revenue over FINAL to the buckets of the day and to no other |
| `Revenue.Warehouse.Reconcile` | deploy/airflow/dags/ev_analytics_daily.py:119-154 | the job rewrites exactly the day before the newest event's day; when the second command fails that day is left empty and an error is returned; nothing happens when there are no events |
| `Books.BooksAreExact` | deploy/airflow/dags/ev_analytics_daily.py:119-154 | raw log to books: once every acceptable event sent is committed and the table has taken in the clean topic, FINAL equals, in every bucket, a ledger that lists each accepted event once, and so does a bucket of the reconciled day if and only if no stop of it arrived between the two commands |
| `Books.DrainedIsReachable` | processor/consumer.go:94-141 | every run of at least one worker can be continued, with nothing new sent, until every acceptable event sent is committed |
| `Books.PublishedIsBillable` | processor/validate.go:146-158 | no published stop has a negative cost |
| `Books.DashboardNeverUnderstates` | deploy/clickhouse/init/02_aggregates.sql:3-8 | over every delivery run and every warehouse run the dashboard never shows less than FINAL outside the days deleted and not yet recomputed |
| `CurrentState.WritesOf` | processor/redis_state.go:62-100 | exactly which fields each kind of event writes, and that a stop ends with power 0 and no session whatever its meter says |
| `CurrentState.CasAllIsDelta` | processor/redis_state.go:17-25 | a sequence of guarded writes equals one override that depends on the start only through last_seen |
| `CurrentState.LastIsMaximum` | processor/redis_state.go:17-25 | last_seen ends as the maximum of the start and all timestamps, in any arrival order |
| `CurrentState.ReplayIsHarmless` | processor/realtime.go:57-60 | applying a batch twice equals applying it once |
| `CurrentState.RetryIsHarmless` | processor/realtime.go:57-74 | any prefix followed by the whole batch equals the whole batch, ties and repeated keys included |
| `CurrentState.RetryIff` | processor/realtime.go:57-74 | after any part of the batch has run, in any order and with gaps and repeats, a complete pass leaves the hash as one application does if and only if every field has its winner at or above the clock that the part left, or already holds its final value |
| `CurrentState.PassChangesNothingIff` | processor/redis_state.go:17-25 | any further pass over any hash changes nothing if and only if it holds nothing newer than the clock and, field by field, its last event at the clock writes what is there |
| `CurrentState.ShorterRetryIff` | processor/realtime.go:57-74 | a retry that breaks earlier than the first attempt is harmless for a key if and only if, field by field, the last of the newest events it re-applies writes what the last of all the newest events writes |
| `CurrentState.ShorterRetryRevivesSession` | processor/realtime.go:57-60 | the family of inputs for which the shorter retry brings a finished session back |
| `CurrentState.SkippingThenRetryingLoses` | processor/redis_state.go:122-146 | for any hash, STATUS_CHANGE and newer other events: when only the others were applied, the complete retry does not restore the status |
| `CurrentState.LossHeals` | processor/realtime.go:15-21 | for any two histories of a hash, once an event at least as new reaches both they agree for ever on last_seen and every decision, and on a field if and only if it was written since or agreed already |
| `CurrentState.LostStatusStaysLost` | processor/redis_state.go:55-67 | from any hash and for any status: after a lost STATUS_CHANGE no number of other events makes up for it |
| `CurrentState.OrderDoesNotMatter` | processor/redis_state.go:13-25 | two histories of the same events, in any order and multiplicity, end with the maximum timestamp and agree on every field the newest events write consistently |
| `CurrentState.FieldIsNewestIff` | processor/redis_state.go:13-25 | from any stored clock and for any history, repeats and recurring values included: the last accepted writer of a field is a newest one if and only if a newest writer reaches the store before anything newer |
| `CurrentState.FieldIsWinners` | processor/redis_state.go:17-25 | from any hash a field ends with the value of its last accepted writer, or keeps what it had |
| `CurrentState.NewestValueIff` | processor/redis_state.go:13-25 | the same in terms of values: a value that only the newest writers write is what the field ends with if and only if one of them is in time |
| `CurrentState.FaultTripleEndsFaulted` | processor/redis_state.go:55-61 | in any order and with duplicates, the same-timestamp fault triple ends Faulted, without session, at power 0 |
| `Realtime.StateStore.ApplyOne` | processor/redis_state.go:104-111 | one script run changes one hash as the register says and reports whether it landed |
| `Realtime.StateStore.RunAll` | processor/redis_state.go:130-146 | running the script for each event in order gives the store and the aligned answers of the specification |
| `Realtime.StateStore.ApplyBatch` | processor/redis_state.go:125-147 | a failed call leaves any events of the batch applied, refused commands and re-runs by the client included; a successful one ends with a complete pass in order and reports its answers, aligned |
| `Realtime.RealtimeHandler.ApplyBatch` | processor/realtime.go:34-91 | with at most one retry: the resulting store and stale count for every outcome; when an attempt goes through, last_seen of the key of every accepted message has reached its instant, and the store is as after one application if and only if every key is safe with what ran before |
| `Realtime.RealtimeHandler.CollectValid` | processor/realtime.go:38-52 | event j is the j-th accepted message, with the decoded event and the instant its verdict carries; no accepted message is missing |
| `Realtime.AnswersIff` | processor/redis_state.go:17-25 | the script answers yes for an event if and only if its key has seen nothing newer before it, in the store or in the batch |
| `Realtime.CountStaleIs` | processor/realtime.go:79-90 | the stale count is the number of answers that were no |
| `Realtime.KeysAreIndependent` | processor/redis_state.go:125-134 | each hash of the store is the register applied to that key's own events |
| `Realtime.StoreRetryIsHarmless` | processor/realtime.go:57-74 | on the whole store, any prefix and then the batch equals the batch |
| `Realtime.StoreRetryIff` | processor/realtime.go:57-74 | on the whole store, a complete pass after any part of the batch equals one application if and only if every key and field is safe |
| `Realtime.BrokenPassesAreHarmless` | processor/realtime.go:57-74 | any number of earlier passes that each broke off after a prefix are harmless to a complete pass |
| `Realtime.StorePassChangesNothingIff` | processor/realtime.go:57-74 | any further pass, complete or not, leaves the store alone if and only if it is idle for every key |
| `Realtime.StoreLossHeals` | processor/realtime.go:15-21 | self-healing on the store, for the key of the next event and any two histories |
| `Naming.KeysNeverCollide` | processor/redis_state.go:40-53 | two events share a Redis key if and only if they name the same connector, or are heartbeats of the same station |
| `Naming.StationIdInjective` | simulator/model.go:292-294 | a padded station id determines city code and number, whatever characters codes contain and past 9999 |
| `Naming.Pad4IsShort` | simulator/model.go:293-294 | at least four digits, and no more than the number needs |
| `Roster.BuildStations` | simulator/model.go:272-312 | the counter loop yields pairwise distinct station ids |
| `Roster.NumbersCountPicks` | simulator/model.go:290-294 | a site's number counts the picks of its city up to and including its own |
| `Roster.SeededKnows` | simulator/registry.go:65-80 | every station finds its own row in the seeded registry |
| `ChargingModel.Connector.Start` | simulator/model.go:345-371 | the session, deadlines and SESSION_START of the drawn car: charge, stay, tariff, battery, and the smaller of the two power limits |
| `ChargingModel.Connector.Tick` | simulator/model.go:374-401 | the reading adds the energy of the interval at the present power and its share of charge, and the METER_UPDATE says so |
| `ChargingModel.Connector.Stop` | simulator/model.go:411-451 | the session ends with its tail unless the battery is full; the SESSION_STOP bills the final energy by the catalog entry, with the multiplier inside the windows, and flags only a real premium |
| `ChargingModel.PowerTapers` | simulator/model.go:486-494 | full target below 80 % charge, then linear down to 8 % of the target at 100 % |
| `ChargingModel.RoundIsNearest` | simulator/model.go:511-513 | rounding gives the one nearest integer, halves away from zero |
| `ChargingModel.CatalogIsKeyed` | simulator/model.go:425 | every tariff is found under its own id |
| `ChargingModel.StopSays` | simulator/model.go:411-451 | what a stop says of the session it ends: registers, place, time and bill |
| `ChargingModel.HeartbeatSays` | simulator/model.go:453-464 | a heartbeat names its station, connector 0 and its time |
| `Simulator.StepOne` | simulator/main.go:179-225 | the in-place switch refines the tick function: state, events and counter |
| `Simulator.StepEach` | simulator/main.go:179-225 | the loop over distinct connector objects steps each exactly once, in order; the returned outcomes are those of the tick function |
| `Simulator.StepStation` | simulator/main.go:173-226 | heartbeat when due, then all connectors |
| `SimulatorTicks.TickIsQuietIff` | simulator/main.go:180-224 | a tick does nothing if and only if nothing is due: no repair, fault, arrival, departure or reading |
| `SimulatorTicks.TickWithoutSession` | simulator/main.go:181-200 | what a repair, a fault and an arrival do: states, deadlines, events, counter |
| `SimulatorTicks.TickReads` | simulator/main.go:221-223 | what a reading does |
| `SimulatorTicks.TickStops` | simulator/main.go:203-220 | what a fault and a departure do to a session; a departure by duration is back-dated to the planned end |
| `SimulatorTicks.EveryTickActs` | simulator/main.go:166-227 | in every run a tick changes the connector and emits events exactly when something is due: a due arrival opens the drawn session, a due departure or fault closes the open one |
| `Simulator.StepKeepsCoherent` | simulator/main.go:180-224 | Charging exactly when a session exists, and the counter moves with it |
| `Simulator.CounterIsExact` | simulator/main.go:105-141 | over every interleaving of the turns of all connectors of all stations, Charging holds exactly where a session exists and the shared counter equals the number of open sessions |
| `Simulator.StationTickIsARun` | simulator/main.go:173-226 | a tick of one station is a run of its connectors' turns, so the fleet theorem covers it |
| `SimulatorRuns.StepHasShape` | simulator/main.go:180-224 | each tick is one of seven shapes, with its events and times |
| `SimulatorRuns.EventsReplayTheConnector` | simulator/main.go:155-227 | a reader of the events accepts every run and knows status and open session after every tick: consecutive STATUS_CHANGEs differ; START, METERs, at most one STOP |
| `SimulatorRuns.AcceptedSessionsAreSingle` | simulator/model.go:345-371 | in any event list the reader accepts, a session starts at most once and stops at most once, after its start |
| `SimulatorRuns.EmissionIsInEventTimeOrder` | simulator/model.go:403-408 | emitted event times never go back although duration stops are back-dated, because every reading is at or before the planned end |
| `SimulatorEnergy.AdvanceConserves` | simulator/model.go:380-383 | one interval keeps the charge law and the energy band |
| `SimulatorEnergy.EnergyIsConserved` | simulator/model.go:374-401 | in every reachable session charge = min(100, initial + 100 E / battery) and energy lies between 8 % and 100 % of target power over the metered time |
| `SimulatorEnergy.RegistersNeverFall` | simulator/model.go:396-398 | the rounded registers of every session start at 0 and never fall; its readings are strictly apart in time except possibly the stop |
| `SimulatorReadings.EveryStopTiles` | simulator/model.go:411-451 | every SESSION_STOP of every run: its register is the rounded session energy, its intervals tile the time from start to stop below full charge, energy past the capacity is less than the tail, a full battery gets no tail, and it is stamped with the tick or the effective stop |
| `SimulatorReadings.EveryReadingExtends` | simulator/model.go:374-401 | every METER_UPDATE of every run: taken below full charge and by the planned end, its intervals tile the time since the start, and energy past the capacity is less than its increment |
| `SimulatorReadings.StopCarriesLastRegister` | simulator/model.go:439-450 | in every run the register of a stop is the last register of its session |
| `SimulatorTicks.EveryStopIsBilled` | simulator/model.go:425-443 | every SESSION_STOP of every run costs, to the nearest cent, its session's final energy times the catalog price, times the multiplier exactly when the hour of the stop lies in a window; flagged exactly when that multiplier also exceeds 1 |
| `SimulatorAccepted.SimulatorIsNeverRejected` | processor/validate.go:51-55 | every event of every run, and every heartbeat, passes the validator whose registry was seeded from the same roster |
| `DelayHeap.SiftUp` | simulator/delayqueue.go:54-57 | restores the heap after an append and permutes |
| `DelayHeap.SiftDown` | simulator/delayqueue.go:70-72 | restores the heap on the first n items, permutes them, touches nothing else |
| `DelayHeap.RootIsEarliest` | simulator/delayqueue.go:19-25 | index 0 of a heap is the earliest item |
| `DelayHeap.DelayQueue.Push` | simulator/delayqueue.go:54-57 | the pending multiset gains exactly the item |
| `DelayHeap.DelayQueue.Pop` | simulator/delayqueue.go:29-36 | the root leaves and the rest stays a heap |
| `DelayHeap.DelayQueue.NextDeadline` | simulator/delayqueue.go:77-84 | the minimum pending fireAt, or not ok exactly when empty |
| `DelayHeap.DelayQueue.PopDue` | simulator/delayqueue.go:66-74 | exactly the due items leave, earliest first; returned plus pending is what was there |
| `DelayHeap.DrainIsExact` | simulator/delayqueue.go:64-66 | a drain takes every copy of every due item and no copy of any other |
| `DelayHeap.Drive` | simulator/delayqueue.go:38-84 | over any sequence of operations each drain hands out exactly the copies pending and due at that moment, sorted; what is pending is the plain multiset's; pushed = handed out + pending |
| `DelayWakeup.ParkedWorkerWillWake` | simulator/delayqueue.go:86-113 | in every interleaving a parked worker with pending items has its timer at the minimum, a token buffered or a pusher about to signal; with a due item some step can move it |
| `DelayWakeup.NeverEarlyNeverTwice` | simulator/delayqueue.go:86-113 | nothing is written before its time or more often than it was pushed, and nothing is missing while the worker is parked |
| `DelayWakeup.InsertStep` | simulator/delayqueue.go:54-57 | pushing on the queue object is the insert step of the protocol |
| `DelayWakeup.PeekStep` | simulator/delayqueue.go:77-101 | nextDeadline on the queue object is the peek step |
| `DelayWakeup.DrainStep` | simulator/delayqueue.go:66-74 | popDue on the queue object is the drain step |
| `Uptime.SegmentsCountTicks` | analytics/queries/A2_station_uptime.sql:45-61 | summed segments equal the number of whole-second instants at which the status was known, or was Faulted |
| `Uptime.SegmentsTelescope` | analytics/queries/A2_station_uptime.sql:51-60 | totals telescope to window end minus first known instant, and downtime <= total |
| `Uptime.UptimeIsPointwise` | analytics/queries/A2_station_uptime.sql:20-65 | A2 for one connector against the pointwise definition, carried-in status included |
| `Uptime.TieAtStartIff` | analytics/queries/A2_station_uptime.sql:33-56 | with a status before the window and a change exactly at its start, the first two rows are such a pair, judged against the pointwise count |
| `Uptime.TieInReportIff` | analytics/queries/A2_station_uptime.sql:45-56 | when the rows of one instant are read in any other order, the downtime is the pointwise one if and only if the rows read last agree on being Faulted or the segment after them spans no second |
| `Uptime.CarriedTieIff` | analytics/queries/A2_station_uptime.sql:34-43 | when argMax carries in another row of the last instant before the window, the downtime is the pointwise one if and only if it agrees on being Faulted or the first segment spans no second |
| `Uptime.CarriedTieCanFail` | analytics/queries/A2_station_uptime.sql:34-43 | two changes of one millisecond before the window, a seven-day outage, and a choice of argMax that reports none of it |
| `Uptime.AgreeingReadingIsRight` | analytics/queries/A2_station_uptime.sql:45-61 | a reading of all rows at once, argMax included, is right when every segment that spans a second is attributed to a status that agrees on being Faulted |
| `Uptime.TieAtStartCanFail` | analytics/queries/A2_station_uptime.sql:21-22 | a connector that is down for the whole seven-day window and is reported as never down under the other order |
| `SimulatorUptime.RowsTellTheStatus` | simulator/main.go:155-164 | in every run the STATUS_CHANGE rows form a timeline that says at every instant what the connector was |
| `SimulatorUptime.ReportedDowntimeIsReal` | analytics/queries/A2_station_uptime.sql:3-6 | on every simulator run, rows of one millisecond read in the order of emission, the downtime A2 reports is the number of seconds at which the connector was Faulted |
| `HourlyEnergy.PeriodIsRegisterDifference` | analytics/queries/A1_hourly_energy.sql:21-38 | the clamped increments of any period equal the register at its end minus the register at its start |
| `HourlyEnergy.HoursTelescope` | analytics/queries/A1_hourly_energy.sql:32-37 | the hours of any span add up to the register difference over the span |
| `HourlyEnergy.CoveringHoursCountLastRegister` | analytics/queries/A1_hourly_energy.sql:32-37 | hours that cover a session add up to its last register |
| `HourlyEnergy.TotalIsHighestIff` | analytics/queries/A1_hourly_energy.sql:34 | clamping never under-counts, and counts exactly the highest register if and only if the register only rises from its highest value so far |
| `HourlyEnergy.RisingTotal` | analytics/queries/A3_duration_energy_by_brand.sql:13 | for registers that rise from 0, the A1 total is the last register and the max - min of A3 |
| `HourlyEnergy.LostReadingsDoNotMatter` | analytics/queries/A1_hourly_energy.sql:3-8 | losing any intermediate readings leaves the session total unchanged |
| `HourlyEnergy.TieAtTheEndIsHarmless` | analytics/queries/A1_hourly_energy.sql:25-28 | the one order that a shared millisecond leaves open does not change the total |
| `HourlyEnergy.SimulatedSessionsAddUp` | simulator/model.go:380-398 | for every session of every simulator run: hours telescope, the total is the last register and max - min, covering hours add up to it, and losing any readings but the first and last changes nothing |
| `HourlyEnergy.StoppedSessionCountsStopRegister` | simulator/model.go:418-447 | for every stop of every simulator run the clamped increments of its session add up to the register the stop carries |

## Left out

- JSON encoding and decoding and the parsing of RFC 3339 text (section 5.6 of RFC 3339): a payload is malformed or is the event it decodes to, and a timestamp is the parsed instant or nothing; only the milliseconds the pipeline compares are kept.
- Clients and servers of Kafka, Redis, Postgres, ClickHouse and Airflow: they appear as logs, maps and arbitrary outcomes. A write that reports success is taken to be durable.
- Expiry of current-state hashes (the PEXPIRE of processor/redis_state.go:23) and the table TTL of deploy/clickhouse/init/01_schema.sql:114.
- Endless loops, goroutines and mutexes: `Consumer.AnalyticsWorker.Serve` runs any finite number of turns of one worker; several workers interleave in the step system of `Delivery`.
- The realtime consumer loop: what its commit-on-failure policy means for the state is `CurrentState.LossHeals`; its offsets are not modelled.
- Random distributions: draws are arbitrary values in the ranges the code produces.
- Rounding error of binary floating point: quantities are reals, and the code's rounding functions are exact decimal rounding.
- `partition` of simulator/main.go: which station belongs to which group makes no difference, since the turns of all connectors interleave at will.
- SimulatorUptime.ReportedDowntimeIsReal: status changes of one millisecond have no order in the report's data and are read in the order of emission, also by argMax; the `Uptime` lemmas on ties say exactly when another reading matters.
- Station-level sums, ordering and rounding in A1 and A2: the model states them per connector and per session.
- Reports A3 (except its energy), A4, A5, A6, the drift index, freshness and compaction jobs, metrics, configuration loading, dashboards and scripts: easy members or statistics outside this model.
- Flattening of event columns (`processor/transform`): a clean row carries the event itself.
- Revenue.Warehouse.Reconcile: a failing second command inserts nothing, and a delete that fails is taken not to have started.
