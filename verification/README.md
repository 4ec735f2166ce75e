# A verified model of the NXIIoT edge gateway

The gateway polls Modbus devices, stores every reading in a local queue and forwards the queue to a
server that deduplicates by (gateway, sequence number). This project models the parts of that pipeline
where a mistake would lose, duplicate or corrupt a reading, and proves what the design promises of them.

`dafny verify dfyconfig.toml` checks everything.

**Store and forward.** `Queue.dfy` gives the queue table as a value and each repository call as a function
on it; `Repository.dfy` is the object whose methods update the table and are proved to be those functions.
`Delivery.dfy` puts the queue, the forwarder's batches, the MQTT adapter's pending map, the network and the
server's store into one step system of seventeen kinds of step: every repository call, publishing, ingest
of any prefix of a batch, acks, rejections, timeouts, crash, boot, recovery, eviction and retention.
Messages are never removed from the network, so each may arrive late, repeatedly or not at all (section
4.3.2 of MQTT 3.1.1). `Guarantees.dfy`, `RetryRuns.dfy` and `DispatchOrder.dfy` draw the promises from its
invariant, for every run, and `Stranding.dfy` accounts for the rows that get stuck. `Server.dfy` has the two
receivers and `Forwarder.dfy` the adapter and the draining of a backlog. `Gateway.dfy` is the forwarder loop
on the repository, adapter and store objects themselves: anything may happen between fetch, send and mark,
and every change the objects undergo is proved to be a step of the system (paths: `Paths.dfy`).

**Reading devices.** `BlockPlan.dfy` is the planner that merges data points into block reads, in wrapping
16-bit arithmetic. `PlanFacts.dfy` proves that the plan partitions the points and contains them,
`PlanMinimal.dfy` that the greedy merge makes the fewest requests possible, `PlanTop.dfy` exactly when that
still holds at the top of the register space, `BlockReads.dfy` and `Poller.dfy` that slicing a block's reply reports what a dedicated read would. `Decode.dfy` covers byte
orders and integers.

**Around them.** `Timestamps.dfy` (text columns used as an ordering), `Backoff.dfy`, `Manager.dfy` (live
reload of pollers), `Restore.dfy`, `ConfigImport.dfy`, `ConfigUpdate.dfy` and `ConfigServer.dfy`
(configuration backup), and
`Ntp.dfy` (SNTP clock offset, sections 3 and 5 of RFC 4330).

Each repository call is one atomic step: transactions take the write lock at BEGIN
(gateway/internal/storage/storage.go:35). Row ids of the queue are never reused (AUTOINCREMENT,
gateway/migrations/0001_init.sql:49), a new row is due at once (default of `next_attempt_at`,
gateway/migrations/0003_data_queue_retry.sql:13), and the gateway ids in `own` are used by this gateway only.

## Where the code does not do what it is meant to

Each of these has an input that shows it and a theorem that says exactly when it happens.

- A batch with one row evicted in flight cannot be marked failed: the transaction rolls back and the other
  rows stay SENDING until a restart. `Stranding.StrandingRun` is such a run, `Stranding.StepStrandsIff` names
  every step that strands a row and when, `Stranding.RestartFrees` is the way out.
- A data point on the last register, merged behind another, is reported INVALID although a read of its own
  succeeds, because its end wraps to 0 (`BlockReads.LastRegisterIsLost`). `BlockReads.PlanReadsAlikeIff` is
  the condition for every point of every plan.
- The gap test of the planner wraps too, and then adjacent registers near the top are read one by one
  (`PlanTop.AdjacentNotMerged`). `PlanTop.MinimalIff` says for which lists the plan is still minimal.
- Restoring a backup onto an empty gateway is documented to create everything fresh
  (gateway/internal/api/configio.go:134-142). A data point whose old id equals an id just given out
  overwrites that row instead, and stays on the other device (`ConfigImport.InterleavedIsLost`). On a
  gateway that was used and then emptied the same happens to connections
  (`ConfigImport.EmptiedGatewayLosesConnection`). `ConfigImport.RestoreCopiesIff` is the exact condition.
- From the year 10000 on, timestamp texts may sort against their times
  (`Timestamps.YearTenThousandSortsFirst`). `Timestamps.TextOrderIff` decides it for any two times.
- Once the server's clock is past 2036 the offset is wrong by whole NTP eras, even if both clocks agree
  (`Ntp.BothInSecondEra`). `Ntp.AccurateIffServerInFirstEra` is the condition until 2172.

## Model

| member | source | states |
|---|---|---|
| Backoff.BackoffMs | gateway/internal/queue/backoff.go:8-25 | every delay lies between one second and one minute, for any retry count including zero and negative ones |
| Backoff.TotalBackoffClosedForm | gateway/internal/queue/backoff.go:8-25 | the first n delays add up to 2^n − 1 s for n ≤ 6, then to 63 + 60 (n − 6) s |
| Backoff.BackoffMonotone | gateway/internal/queue/backoff.go:8-25 | a later failure never waits less, and no wait exceeds the cap |
| Queue.FailRowsByRow | gateway/internal/queue/dispatch.go:106-138 | MarkFailed goes through if and only if every id still has its row; then each row is failed once with its own clock reading and no other row changes |
| Queue.CutIsFloor | gateway/internal/queue/queue.go:15 | a time is cut to the millisecond it falls in |
| Queue.NewRowIs | gateway/internal/queue/queue.go:52-86 | an inserted row has the reading's content field by field, an empty priority made NORMAL, is PENDING, never failed and due since 1970 |
| Queue.FailRowIs | gateway/internal/queue/dispatch.go:117-133 | a failed row keeps its content, counts one more retry, notes the error and is due again 1, 2, 4, 8, 16, 32 and then 60 s later |
| Queue.FetchOrder | gateway/internal/queue/dispatch.go:25-50 | nothing due is left behind, or comes later, that is CRITICAL after anything else, HIGH after anything but CRITICAL, NORMAL after LOW, or LOW after an unknown priority; within one priority lower sequence numbers go first |
| Queue.FetchComplete | gateway/internal/queue/dispatch.go:47-50 | a batch takes no row twice, no more than the limit, and leaves a due row behind only if it is full |
| Queue.EvictOrder | gateway/internal/queue/storagepolicy.go:20-26 | LOW rows go before NORMAL, NORMAL before HIGH, HIGH before unknown ones, and within one priority the oldest event goes first |
| Queue.EvictTakes | gateway/internal/queue/storagepolicy.go:14-32 | an eviction removes non-CRITICAL rows only, no more than the limit, all of them if there are fewer, and nothing else |
| Queue.RetiredIff | gateway/internal/queue/queue.go:92-100 | a row is retired if and only if it is SENT and was sent before the cutoff; the others stay as they are |
| QueueRepository.SelectTop | gateway/internal/queue/dispatch.go:47-50 | ordered selection with a limit: distinct, sorted, nothing left out ranks before anything taken, and the limit is used up unless nothing is left |
| QueueRepository.Repository.EnsureGateway | gateway/internal/queue/queue.go:40-46 | a new gateway's counter starts at 0, an existing counter survives |
| QueueRepository.Repository.Insert | gateway/internal/queue/queue.go:52-86 | row, row id and counter advance together, or nothing changes; the row gets the next sequence number |
| QueueRepository.Repository.FetchBatch | gateway/internal/queue/dispatch.go:36-90 | the due rows of highest priority and lowest sequence, no more than the limit, become SENDING and are handed out in that order; nothing else changes |
| QueueRepository.Repository.MarkSent | gateway/internal/queue/dispatch.go:93-101 | exactly the named rows that still exist become SENT with the time of marking |
| QueueRepository.Repository.MarkFailed | gateway/internal/queue/dispatch.go:106-138 | the loop over the batch equals the all-or-nothing function on the table, reporting whether it committed |
| QueueRepository.RollsBack | gateway/internal/queue/dispatch.go:126-130 | once one id has no row, the whole transaction comes to nothing whatever follows |
| QueueRepository.Repository.RecoverSendingToPending | gateway/internal/queue/dispatch.go:143-149 | exactly the SENDING rows become PENDING, and their number is returned |
| QueueRepository.Repository.DeleteSentOlderThan | gateway/internal/queue/queue.go:92-100 | exactly the SENT rows older than the cutoff go, and their number is returned |
| QueueRepository.Repository.EvictOldestNonCritical | gateway/internal/queue/storagepolicy.go:14-32 | the rows deleted are the lowest-priority, oldest non-CRITICAL ones, and their number is returned |
| Server.IngestFacts | internal-server/store.go:71-92 | ingest alters nothing stored, stores every key of the batch, and anything new is an entry of the batch under its own key |
| Server.IngestIdempotent | internal-server/store.go:71-92 | replaying entries already stored changes nothing |
| Server.CutShortThenRetried | internal-server/store.go:71-92 | an ingest that failed after k entries and is retried in full ends exactly where one clean ingest ends |
| Server.IngestSplit | internal-server/store.go:71-92 | ingesting a batch is ingesting any prefix and then the rest |
| Server.ContentsAre | internal-server/store.go:31-46 | under each key of the table stands the entry that has it |
| Server.Store.IngestBatch | internal-server/store.go:71-92 | the table keeps one row per key, holds the ingest of the entries before the failing one, and the two counters account for every entry handled |
| Server.Store.HandleMessage | internal-server/consumer.go:122-146 | an ack goes out for this batch if and only if the payload decodes and all of it is stored; a malformed payload changes nothing, a failing one leaves its prefix, and nothing already stored is altered |
| Server.SimStore.IngestBatch | gateway/cmd/server-sim/main.go:54-69 | the `seen` map and the `received` list stay in step, and the simulator accepts exactly what the production store accepts |
| Delivery.InsertNeverConflicts | gateway/internal/queue/queue.go:52-86 | in every state satisfying the invariant the unique index never refuses an insert for a known gateway |
| Delivery.CommitKeysDiffer | gateway/internal/queue/queue.go:59-73 | two commits never share a (gateway, sequence) key |
| Delivery.InsertKeeps | gateway/internal/queue/queue.go:52-86 | Insert keeps the delivery invariant |
| Delivery.FetchKeeps | gateway/internal/queue/dispatch.go:36-90 | FetchBatch keeps the invariant: the new batch shares no row with those in flight |
| Delivery.PublishKeeps | gateway/internal/forwarder/mqttadapter.go:293-311 | registering and publishing a batch keeps the invariant |
| Delivery.IngestKeeps | internal-server/consumer.go:122-146 | ingest of any prefix of any message ever sent, acked only when complete, keeps the invariant |
| Delivery.AckedMeansStored | gateway/internal/forwarder/mqttadapter.go:266-325 | when the waiting Send holds a positive ack, every entry of its own batch is stored |
| Delivery.RecordSentKeeps | gateway/internal/queue/dispatch.go:93-101 | marking an acknowledged batch SENT by id alone keeps the invariant, also if rows were evicted meanwhile |
| Delivery.RecordFailureKeeps | gateway/internal/queue/dispatch.go:106-138 | recording a failure, committed or rolled back, keeps the invariant |
| Delivery.EvictKeeps | gateway/internal/queue/storagepolicy.go:14-32 | eviction at any moment keeps the invariant, batches in flight included |
| Delivery.RetireKeeps | gateway/internal/queue/queue.go:92-100 | retention keeps the invariant: only delivered rows go |
| Delivery.StepKeeps | gateway/internal/forwarder/forwarder.go:42-92 | every one of the seventeen kinds of step keeps the whole invariant |
| Delivery.RunKeeps | gateway/internal/forwarder/forwarder.go:42-92 | the invariant holds in every state of every run |
| Guarantees.CarriesIffExpected | gateway/internal/forwarder/wire.go:23-38 | exactly one wire entry carries a reading: its fields, its number, the millisecond its event fell in, an empty priority made NORMAL |
| Guarantees.SentMeansDelivered | gateway/internal/queue/dispatch.go:36-149 | in every run, a SENT row's key is in the server store with an entry that carries the reading inserted, field by field |
| Guarantees.SequencesCountUp | gateway/internal/queue/queue.go:40-86 | in every run the k-th committed insert of a gateway carries sequence k, and no number is used twice, restarts and deletions included |
| Guarantees.KnownGatewayInsertCommits | gateway/internal/queue/queue.go:52-86 | an insert for a gateway that was set up always commits with the next number; any other insert changes nothing |
| Guarantees.RetransmissionsAgree | gateway/internal/forwarder/wire.go:23-38 | two wire entries with the same key, in whatever batches, are identical |
| Guarantees.StoredIsExact | internal-server/store.go:71-92 | what is stored under a commit's key carries that commit, field by field, its event time cut to the millisecond it falls in |
| Guarantees.ServerHoldsCommitted | internal-server/store.go:71-92 | under this gateway's ids the server holds committed readings only, each under its own key |
| Guarantees.Conservation | gateway/internal/queue/storagepolicy.go:14-32 | at every point of every run a committed reading is exactly one of: queued unaltered, retired and stored at the server, evicted and not CRITICAL |
| Guarantees.CriticalNeverLost | gateway/internal/queue/storagepolicy.go:14-32 | a CRITICAL reading no longer queued is at the server, unaltered |
| Guarantees.FlightsAreApart | gateway/internal/forwarder/forwarder.go:62-92 | batches in flight share no row, and their surviving rows are all SENDING |
| Guarantees.RowsMove | gateway/internal/queue/dispatch.go:77-149 | every step moves every row along the queue's state machine, each transition only from the status it expects, and only Insert brings in a row, under a new id |
| Guarantees.StepLasts | gateway/internal/queue/dispatch.go:106-149 | no step takes a row out of SENT except by deleting it, reuses a row id, or alters the server's store |
| Guarantees.RunLasts | gateway/internal/queue/dispatch.go:36-149 | the same between any two moments of a run, however far apart |
| Stranding.FailureStrandsIff | gateway/internal/queue/dispatch.go:106-138 | recording a failure leaves a surviving row of the batch SENDING with no dispatch working on it if and only if the call failed or a row of the batch was evicted in flight |
| Stranding.SentStrandsIff | gateway/internal/queue/dispatch.go:93-101 | marking a batch sent strands its surviving rows if and only if the call failed |
| Stranding.StartStrandsIff | gateway/internal/forwarder/forwarder.go:42-47 | a start strands exactly the SENDING rows, and only if its recovery failed |
| Stranding.StepStrandsIff | gateway/internal/forwarder/forwarder.go:42-92 | in every reachable state, these three are the only steps that strand a row, each under exactly that condition |
| Stranding.RollbackStrands | gateway/internal/queue/dispatch.go:126-130 | in every run, one row evicted in flight strands all surviving rows of a failed batch |
| Stranding.StrandingRun | gateway/internal/queue/dispatch.go:126-130 | a run from the empty gateway, all database calls succeeding, that ends with a stranded row |
| Stranding.RestartFrees | gateway/internal/queue/dispatch.go:143-149 | a crash and a start with recovery make a stranded row PENDING again and change nothing else of it |
| Stranding.StrandedUntilRestart | gateway/internal/forwarder/forwarder.go:42-60 | a stranded row stays that way, unless evicted, through any run without a restart |
| RetryRuns.RunCounts | gateway/internal/queue/dispatch.go:117-137 | in every run a row's retry_count is the number of its recorded failures |
| RetryRuns.RunPaces | gateway/internal/queue/dispatch.go:47-50 | with a clock that never goes back, consecutive failures of a row are at least the scheduled backoff apart, crashes included |
| RetryRuns.FailuresKeepTheirDistance | gateway/internal/queue/backoff.go:8-25 | the first and the (k+1)-th failure are at least 2^k − 1 s apart up to k = 6, then 63 + 60 (k − 6) s |
| DispatchOrder.SequenceIsId | gateway/internal/queue/queue.go:59-73 | with a single gateway, row ids and sequence numbers coincide |
| DispatchOrder.FetchedIsGood | gateway/internal/queue/dispatch.go:25-50 | a fetched batch is in order and leaves behind no waiting row of a priority that precedes one it took |
| DispatchOrder.RunInOrder | gateway/internal/queue/dispatch.go:25-50 | in every run without failures or crashes everything dispatched is ahead of everything still waiting in its priority |
| DispatchOrder.SentInSequence | gateway/internal/queue/dispatch.go:25-50 | in such a run readings of one priority are dispatched in strictly increasing sequence order across all batches, whatever inserts and evictions interleave |
| Forwarder.MqttAdapter.HandleAck | gateway/internal/forwarder/mqttadapter.go:266-282 | an ack reaches only the batch it names, only while that is waited for, and a second one does not displace the first |
| Forwarder.FirstAckIs | gateway/internal/forwarder/mqttadapter.go:273-282 | the ack Send sees is the first arrival naming its batch, and there is none only if no arrival names it |
| Forwarder.MqttAdapter.Send | gateway/internal/forwarder/mqttadapter.go:288-325 | Send succeeds if and only if it was connected, published, and the first ack naming its batch carries no error; it leaves nothing of its own in the pending map, and other batches gain only acks of their own |
| Forwarder.DispatchShrinks | gateway/internal/forwarder/forwarder.go:62-92 | a successful dispatch delivers exactly min(batch, backlog) rows and loses none |
| Forwarder.BacklogAfter | gateway/internal/forwarder/forwarder.go:42-92 | k successful dispatches leave max(0, n − k · batch) rows undelivered |
| Forwarder.DrainsExactly | gateway/internal/forwarder/forwarder.go:42-92 | after recovery n undelivered rows are all SENT if and only if at least ceil(n / batch) successful dispatches were made |
| Gateway.Deployment.Happens | gateway/internal/queue/queue.go:52-100 | whatever the poller, the sweepers, the server or the network do to the objects is a step of the delivery system and leaves the batch in flight alone |
| Gateway.Deployment.Send | gateway/internal/forwarder/mqttadapter.go:288-325 | on the adapter and server objects, with anything happening while it waits: success means that the server's table holds every entry of the batch; if the batch arrives whole and its ack comes back, unrejected and in time, Send succeeds |
| Gateway.Deployment.DispatchOnce | gateway/internal/forwarder/forwarder.go:62-92 | fetch, send and mark on the objects, with inserts, evictions, ingests, acks and crashes in between, stay within the delivery system; the surviving rows of the batch end up SENT, PENDING with the error noted, or SENDING, exactly as the outcome says; undisturbed, the table changes as the drain theorems assume |
| Gateway.Deployment.Run | gateway/internal/forwarder/forwarder.go:42-60 | recovery once, then a dispatch per tick until a crash, all of it a path of the delivery system from its empty state |
| Gateway.Deployment.Live | gateway/internal/forwarder/forwarder.go:42-92 | after any number of lives of the process, every SENT row of the table is in the server's table with the same content |
| Timestamps.CivilUnique | gateway/internal/queue/queue.go:15 | a valid calendar time is the one its instant is shown as: the calendar conversion is a bijection |
| Timestamps.MonthLengths | gateway/internal/queue/queue.go:15 | the calendar behind it: the twelve month lengths and the leap year rule |
| Timestamps.YearOfMonths | gateway/internal/queue/queue.go:15 | a year is as long as its twelve months |
| Timestamps.DigitsOrder | gateway/internal/queue/queue.go:15 | zero-padded numbers of one width compare as texts as they compare as numbers |
| Timestamps.JoinOrder | gateway/internal/queue/queue.go:15 | fixed-width fields joined by the same separators compare as texts as the fields compare one after the other |
| Timestamps.TextOrderIsTimeOrder | gateway/internal/queue/queue.go:15 | for years 0000 to 9999, comparing the texts byte by byte is comparing the times, and equal texts are equal times |
| Timestamps.ParseFormat | gateway/internal/queue/queue.go:15 | parsing a formatted time gives that time |
| Timestamps.SameWidthSorts | gateway/internal/queue/queue.go:15 | texts whose years have the same number of digits compare as their times, in any year |
| Timestamps.WiderYearSorts | gateway/internal/queue/queue.go:15 | a later time with more year digits has the later text if and only if its leading digits are not below the other year |
| Timestamps.TextOrderIff | gateway/internal/queue/queue.go:15 | for any two times at all, the texts compare as the times if and only if the years are equally wide or the wider one's leading digits do not fall below the other |
| Timestamps.YearsSortBelow100000 | gateway/internal/queue/queue.go:15 | below year 100000 that condition is: same width, or one year at most a tenth of the other |
| Timestamps.YearTenThousandSortsFirst | gateway/internal/queue/queue.go:15 | every time in years 10000 to 19999 sorts before every one in years 2000 to 9999, although it is later |
| Timestamps.WireRoundTrip | gateway/internal/forwarder/wire.go:33 | the server reads from the wire text, with trailing zeros of the fraction dropped, the very instant stored |
| Timestamps.WireDropsZeros | gateway/internal/forwarder/wire.go:33 | the wire text is the column text without the trailing zeros of the fraction, and without the point if nothing is left |
| ColumnTexts.EpochIsZero | gateway/migrations/0003_data_queue_retry.sql:13 | the text that is the default of next_attempt_at is the text of the zero of the queue's clock |
| ColumnTexts.CutAfterDelay | gateway/internal/queue/dispatch.go:131-132 | cutting a time to the millisecond commutes with adding a backoff, so next-attempt times may be counted in milliseconds |
| ColumnTexts.ComparesAsTime | gateway/internal/queue/queue.go:15 | column texts compare as the millisecond times they show |
| ColumnTexts.SqlMeansWhatItSays | gateway/internal/queue/dispatch.go:47-50 | the text tests for due and for expired rows are the tests on times |
| ColumnTexts.OldestTextFirst | gateway/internal/queue/storagepolicy.go:20-26 | of two rows of one priority an eviction never keeps the one whose event text is earlier |
| ColumnTexts.EventTimeSurvives | gateway/internal/queue/queue.go:69-73 | the time the server reads, after column and wire, is the millisecond the event fell in |
| Decode.ReorderBytes | gateway/internal/modbus/decode.go:48-65 | the loop gives each position the byte its letter names, or the error of a bad order |
| Decode.DecodeValue | gateway/internal/modbus/decode.go:70-108 | the loops over the bytes give the big-endian number in the type's signedness, with every error case |
| Decode.WidthIs | gateway/internal/modbus/decode.go:21-41 | the six data types, their bytes and registers; any other is unknown |
| Decode.ReorderIs | gateway/internal/modbus/decode.go:48-65 | letter A names the first byte, B the second and so on; an order is refused exactly for a wrong length or a letter out of range |
| Decode.DecodeShort | gateway/internal/modbus/decode.go:70-100 | two bytes, high byte first, unsigned and in two's complement |
| Decode.DecodeLong | gateway/internal/modbus/decode.go:70-104 | four bytes, high byte first, unsigned, in two's complement and as the bits of a float |
| Decode.DecodeDouble | gateway/internal/modbus/decode.go:70-108 | eight bytes, high byte first, as the bits of a double |
| Decode.DecodeOrders | gateway/internal/modbus/decode.go:70-108 | with a byte order the value is that of the reordered bytes, and it is refused exactly for a bad type, size or order |
| Decode.ReorderUndone | gateway/internal/modbus/decode.go:48-65 | for every order that uses each letter, reordering is undone by the inverse order, from either side |
| Decode.PermutationUsesAll | gateway/internal/modbus/decode.go:48-65 | an order of w letters in range that repeats none uses every one of them |
| Decode.LosslessIffEveryLetterUsed | gateway/internal/modbus/decode.go:48-65 | reordering loses no information if and only if the order uses every letter |
| Decode.IntegerRoundTrip | gateway/internal/modbus/decode.go:70-100 | any 16- or 32-bit integer, signed or not, encoded in any such byte order decodes to itself |
| BlockPlan.SortByAddress | gateway/internal/acquisition/blockplan.go:77 | a permutation in ascending address order |
| BlockPlan.MergeGroup | gateway/internal/acquisition/blockplan.go:84-114 | the loop with its pending block computes the greedy merge of the known points |
| BlockPlan.SingleBlocks | gateway/internal/acquisition/blockplan.go:62-74 | coils and discrete inputs get one block for each known point |
| BlockPlan.GroupByCode | gateway/internal/acquisition/blockplan.go:45-48 | every function code present maps to its points in order |
| BlockPlan.PlanBlockReads | gateway/internal/acquisition/blockplan.go:44-118 | the blocks are those of a plan, whatever the map order and however ties of address fall |
| PlanFacts.MergePoints | gateway/internal/acquisition/blockplan.go:84-114 | merging loses no point, adds none and keeps their order |
| PlanFacts.PlanPartitions | gateway/internal/acquisition/blockplan.go:44-118 | over all blocks each known point occurs exactly as often as given, unknown ones never, and a block holds only points of its own function code |
| PlanFacts.BitsStaySingle | gateway/internal/acquisition/blockplan.go:52-74 | a block of function code 1 or 2 holds exactly one point and asks for that point's width |
| PlanFacts.InExactlyOneBlock | gateway/internal/acquisition/blockplan.go:44-118 | a known point given once lies in exactly one block, which has its function code |
| PlanFacts.PlanContains | gateway/internal/acquisition/blockplan.go:84-114 | with address + width ≤ 65535, blocks of every function code but 1 and 2 ask for 1 to 125 registers, from their first point exactly to their furthest end, and contain each of their points; the gap test may wrap |
| PlanFacts.PlanContainsIff | gateway/internal/acquisition/blockplan.go:84-114 | in any plan, points at the very top included, FC3/FC4 blocks ask for 1 to 125 registers, and a point of a block is contained in it if and only if it is its first point or its end does not wrap |
| PlanFacts.MergedContainedIff | gateway/internal/acquisition/blockplan.go:90-97 | a point merged into a block is contained in it if and only if its end does not wrap |
| PlanFacts.GapTestExactIff | gateway/internal/acquisition/blockplan.go:93 | the wrapped gap test is the true one for every later address if and only if block end plus gap does not wrap |
| PlanMinimal.CutPointEndsLast | gateway/internal/acquisition/blockplan.go:92-102 | where greedy cuts, the new point ends beyond every earlier point |
| PlanMinimal.RestartLegal | gateway/internal/acquisition/blockplan.go:92-102 | any rival run stays legal when restarted at the greedy cut |
| PlanMinimal.GreedyIsCut | gateway/internal/acquisition/blockplan.go:84-114 | the greedy blocks are themselves a legal cut of the list, near the top as well |
| PlanMinimal.GreedySpendsLeast | gateway/internal/acquisition/blockplan.go:84-114 | whatever follows the list, any cut of the whole spends at least as many runs before the last greedy block as greedy does |
| PlanMinimal.GreedyIsMinimal | gateway/internal/acquisition/blockplan.go:84-114 | with address + width ≤ 65535, and + 8 for all but the last point, no cut of the sorted list into consecutive runs under the same gap and span rules has fewer runs |
| PlanMinimal.PlanIsMinimal | gateway/internal/acquisition/blockplan.go:77-114 | the same for each batched function code within the whole plan |
| PlanTop.MinimalIff | gateway/internal/acquisition/blockplan.go:92-102 | for every sorted list with address + width ≤ 65535: the merge is minimal if and only if nothing follows the first point within eight registers of the top, or what follows is one legal run, high at most in its last point, that ends beyond the span of the block holding the first |
| PlanTop.PlanMinimalIff | gateway/internal/acquisition/blockplan.go:77-114 | the same for each batched function code within the whole plan |
| PlanTop.AdjacentNotMerged | gateway/internal/acquisition/blockplan.go:93 | registers 65527 and 65528 are read by two requests although one is legal |
| BlockReads.ContainedReadsAlike | gateway/internal/acquisition/poller.go:213-248 | a point inside a block decodes from the block's reply as from a reply of its own |
| BlockReads.SampleIs | gateway/internal/acquisition/poller.go:229-246 | a decoded number is reported GOOD with the point's own scale and offset, an error INVALID and without a value |
| BlockReads.DedicatedReadIs | gateway/internal/api/test.go:111-142 | a read of its own reports the register at the point's address, or the two from there with the first one high |
| BlockReads.BlockReadsPreserveMeaning | gateway/internal/api/test.go:111-142 | for any register contents every known point of a planned FC3/FC4 block gets the value and quality of a dedicated read, byte-order errors included |
| BlockReads.LastRegisterIsLost | gateway/internal/acquisition/blockplan.go:90-97 | two points for which the block read reports INVALID and the dedicated read GOOD |
| BlockReads.PlanReadsAlikeIff | gateway/internal/acquisition/poller.go:213-248 | in any plan, a point of an FC3/FC4 block that a dedicated read gets right is right in the block if and only if it is the block's first point or its end does not wrap |
| BlockReads.ValueIffGood | gateway/internal/acquisition/poller.go:213-248 | decodeAndEmit gives a value if and only if it reports GOOD |
| Poller.QualityIs | gateway/internal/modbus/quality.go:32-77 | the quality of every error, by name: a timeout first, then closed and DNS, then CRC, then the eleven offline phrases, the rest INVALID |
| Poller.ReadDevice | gateway/internal/acquisition/poller.go:176-207 | one request per planned block, in order, to the client's current unit, and the readings are those the replies to these very requests call for |
| Poller.VisitDevice | gateway/internal/acquisition/poller.go:148-151 | the unit id is set before the first request, and all requests made are this device's |
| Poller.VisitReports | gateway/internal/acquisition/poller.go:176-207 | a device read addresses only its device, reports each known point exactly once, and a reading has a value if and only if its quality is GOOD |
| Poller.FailedVisitReports | gateway/internal/acquisition/poller.go:185-196 | a device that fails every request is reported, point by point, with the error's quality and without a value |
| Poller.RoundRobin | gateway/internal/acquisition/poller.go:141-163 | the k-th device read of a connection is of device k modulo their number |
| Poller.VisitReadsAsDedicated | gateway/internal/acquisition/poller.go:176-248 | if the device answers from its registers, a device read reports of every FC3/FC4 point what a read of that point alone would, provided none reaches the top of the register space |
| Poller.EmitAllOffline | gateway/internal/acquisition/poller.go:127-131 | a failed connect reports exactly one reading for each data point of each device, device by device and in order, with the error's quality, never GOOD and without a value |
| Poller.RunConnection | gateway/internal/acquisition/poller.go:99-168 | over every run of a connection: each failed connect and nothing else has an offline turn, then come device reads in cyclic order only, each request belongs to the device read it was made in, and the scan goes on exactly until the context ends |
| Manager.BuildWanted | gateway/internal/acquisition/manager.go:63-94 | the loops compute the wanted jobs, or nothing if any query failed |
| Manager.WantedIs | gateway/internal/acquisition/manager.go:63-94 | one job for each enabled connection with an enabled device, with all of those devices in order, and no other |
| Manager.JobIs | gateway/internal/acquisition/manager.go:76-94 | the job of a connection has exactly its devices, in the order listed, each with its own data points |
| Manager.PollerManager.Reload | gateway/internal/acquisition/manager.go:62-122 | the pollers started and not cancelled become exactly the wanted jobs, an unchanged job keeps its poller, and a failed query changes nothing |
| Manager.PollerManager.ReloadAll | gateway/internal/acquisition/manager.go:62-122 | after any series of reloads the pollers are those of the last one that succeeded, and a connection wanted unchanged throughout keeps its poller |
| Restore.CopiesIff | gateway/internal/api/configio.go:181-205 | restoring entries into an empty AUTOINCREMENT table copies them in order if and only if none carries an id just given to one before it |
| Restore.AscendingNeverHits | gateway/internal/connection/connection.go:130-132 | ascending positive ids never hit a row just created in a table never used |
| ConfigImport.OwnExportChangesNothing | gateway/internal/api/configio.go:175-257 | importing a gateway's own export leaves its configuration unchanged, valid or not |
| ConfigImport.RepeatChangesNothing | gateway/internal/api/configio.go:175-257 | so does importing any part of what the tables say |
| ConfigUpdate.ImportUpdatesConnection | gateway/internal/api/configio.go:181-204 | a connection that is there holds afterwards what the last entry with its id says |
| ConfigUpdate.ImportKeepsConnection | gateway/internal/api/configio.go:181-204 | a connection no entry names is left alone |
| ConfigUpdate.ImportUpdatesDevice | gateway/internal/api/configio.go:207-236 | a device that is there, on a connection of the payload, holds afterwards what the last entry with its id says, on the connection its own one landed on |
| ConfigUpdate.ImportKeepsDevice | gateway/internal/api/configio.go:207-236 | a device no entry names is left alone |
| ConfigUpdate.ImportUpdatesPoint | gateway/internal/api/configio.go:238-255 | a data point that is there holds afterwards what the last entry with its id says, an empty priority made NORMAL, and stays on the device it was on |
| ConfigUpdate.ImportKeepsPoint | gateway/internal/api/configio.go:238-255 | a data point no entry names is left alone |
| ConfigImport.DevicesMove | gateway/internal/api/configio.go:207-236 | into an empty device table, devices are numbered 1, 2, 3 in order, each on the copy of its connection, and their points are restored one after the other |
| ConfigImport.RestoreCopiesIff | gateway/internal/api/configio.go:175-257 | restoring onto a gateway without configuration, used before or not, makes the intended copy if and only if no connection and no data point carries an id just given out |
| ConfigImport.CopiedConnection | gateway/internal/api/configio.go:181-205 | the intended copy has exactly the exported connections, the k-th one under the k-th new id |
| ConfigImport.CopiedDevice | gateway/internal/api/configio.go:207-236 | exactly the exported devices, the k-th one as device k, on the copy of its connection |
| ConfigImport.CopiedPoint | gateway/internal/api/configio.go:238-255 | exactly the exported data points, in export order, each on the copy of its device |
| ConfigImport.NeverUsedCopies | gateway/internal/api/configio.go:175-257 | on a database never used connections and devices are always copied, and data points if and only if the k-th exported one has an id of at least k |
| ConfigImport.AscendingPointsCopy | gateway/internal/api/configio.go:101-118 | data points are copied too when their ids ascend in export order |
| ConfigImport.InterleavedIsLost | gateway/internal/api/configio.go:238-251 | two devices whose restore loses one data point and moves another to the wrong device |
| ConfigImport.EmptiedGatewayLosesConnection | gateway/internal/api/configio.go:181-205 | restoring connections 1 and 2 onto an emptied gateway keeps one row for both |
| ConfigServer.ImportKeepsConsistent | gateway/internal/api/configio.go:143-257 | any payload leaves every device on an existing connection and every data point on an existing device |
| ConfigServer.CheckConnection | gateway/internal/connection/connection.go:63-98 | the checks in their order complain of nothing if and only if the connection is valid |
| ConfigServer.CheckDevice | gateway/internal/device/device.go:29-40 | the same for a device |
| ConfigServer.CheckPoint | gateway/internal/datapoint/datapoint.go:41-62 | the same for a data point |
| ConfigServer.Validate | gateway/internal/api/configio.go:150-169 | no problem is reported if and only if every connection, device and data point is valid |
| ConfigServer.Server.Export | gateway/internal/api/configio.go:65-122 | the export lists every connection, device and data point by ascending id with its contents, and nothing else |
| ConfigServer.Server.ImportConns | gateway/internal/api/configio.go:175-205 | the loop restores the connections whose save goes through, records where each one landed and reports the others |
| ConfigServer.Server.ImportDevices | gateway/internal/api/configio.go:207-255 | the loops restore the devices and points whose saves go through, skip exactly the devices whose connection is not there, and count or report every entry |
| ConfigServer.Server.Import | gateway/internal/api/configio.go:143-257 | a payload is refused as a whole without effect; otherwise the result is that of importing the payload without the entries whose save failed, with every entry counted as created or updated or reported |
| ConfigServer.AllAccounted | gateway/internal/api/configio.go:175-257 | without failures the whole payload is imported, and each device is either saved or reported, once |
| ConfigServer.SurvivingRepeats | gateway/internal/api/configio.go:181-251 | what is left of an export when saves fail still says only what the tables say |
| ConfigServer.Server.ExportThenImport | gateway/internal/api/configio.go:65-257 | taking a backup and restoring it at once is a no-op, whichever saves fail |
| Ntp.TimestampIsFloor | gateway/internal/time/ntp.go:76-81 | reading a wire timestamp through int64 and uint64 never overflows and loses less than a nanosecond |
| Ntp.RefusedIff | gateway/internal/time/ntp.go:59-67 | a reply is refused exactly if it is short, not from a server, or a kiss-of-death |
| Ntp.NoOverflow | gateway/internal/time/ntp.go:69-74 | for local times in the first era no intermediate value leaves int64, whatever is on the wire |
| Ntp.OffsetOfSum | gateway/internal/time/ntp.go:69-74 | for local times until 2172 the differences fit and only their sum can leave int64, and then the result is that of the sum plus 2^64 |
| Ntp.OffsetIs | gateway/internal/time/ntp.go:69-74 | the result is the true clock difference, less one era for each era of the server's clock, plus half the difference of the delays, within two nanoseconds, and 2^63 ns more if the sum overflowed |
| Ntp.OffsetIsAccurate | gateway/internal/time/ntp.go:69-74 | with both clocks in the first era the error is at most half the total network delay plus two nanoseconds, for all delays |
| Ntp.AccurateIffServerInFirstEra | gateway/internal/time/ntp.go:69-81 | until 2172 and for delays under fifteen years, that bound holds if and only if the server's clock is in the first era and the sum fits int64, whichever era the gateway is in |
| Ntp.SumFitsIfClose | gateway/internal/time/ntp.go:73 | the sum fits unless the gateway's clock is 146 years ahead of what the wire shows |
| Ntp.BothInSecondEra | gateway/internal/time/ntp.go:69-81 | gateway and server both at the start of the second era, no delay: the result is off by a whole era |

## Left out

- SQL engines, JSON, the MQTT and Modbus libraries and HTTP are maps, opaque messages and answers that may be failures; nothing is claimed about them.
- The HTTP adapter, MQTT reconnect, subscribe retry and watchdog: they rest on callback timing inside the MQTT library.
- Forwarder.MqttAdapter.HandleAck: a second ack for a batch that already holds one blocks the library's handler in the code; here it is dropped, which is the same for everything claimed.
- Forwarder.MqttAdapter.Send: an ack and a timeout that are both ready are taken as whichever the code picks; `arrivals` lists the acks up to that choice. Gateway.Deployment.Send has that choice as an input.
- Delivery.FetchKeeps: the batch id is named at the fetch, while the code draws it a moment later in Send; it is fresh either way.
- Gateway.Deployment.DispatchOnce: the status counters and log lines of the forwarder are not modelled; a crash falls after the fetch or before the mark, while the step system allows it anywhere.
- Poller.RunConnection: closing the client, the poll-cycle callback and diagnostics are not modelled, and cancellation is seen at the context checks only, not inside a read.
- Poller.ReadDevice: reads have no retry because the code asks for none; the reply is a parameter.
- Decode.IntegerRoundTrip: floating point is opaque, so FLOAT32 and FLOAT64 decode to their bit pattern and scaling is a symbolic term.
- BlockReads.BlockReadsPreserveMeaning: values of FC1/FC2 points are not claimed, since their replies are bit-packed; they are covered by the partition only.
- PlanTop.MinimalIff: nothing is claimed about minimality for points that use register 65535, whose end wraps.
- ConfigServer.Server.Import: a lookup that fails for another reason than a missing row, which the code takes for a missing row, and the reload afterwards are not modelled; the device_id inside an imported data point is ignored by the code and absent here.
- ConfigServer.Server.Export: gateway, forwarder, MQTT and time settings and the live status fields, which an import ignores.
- Clocks and next-attempt times are millisecond numbers in the queue; Timestamps ties them to the texts. A clock that goes back is allowed everywhere except where a theorem names one that never does.
- Timestamps.TextOrderIsTimeOrder: negative years, which cannot be stored as readings, are outside the calendar model.
- The storage sweeper's timers and level classification, retention timers, diagnostics, settings, logging, the web interface, other REST handlers, system metrics and the real-time clock would add easy members only.
- The network configuration service: its timer and its handlers overlap without a common lock.
