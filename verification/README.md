# Verified model of the Gesta agent's accounting and delivery pipeline

The agent collects token usage from coding tools, queues it durably and delivers it to a control plane. This project
models the parts of it that must not lose, double or misplace anything, and proves what they keep. Times are integer
nanoseconds, hashes are taken as injective, and database transactions are atomic steps.

- **Event queue** (`Queue*.dfy`, `GreedySplit.dfy`, `ControlClient.dfy`, `Delivery.dfy`). `QueueModel` states what each
  transaction does to the whole database, `QueueStore` carries it out bucket by bucket, `QueueInvariants` proves index
  agreement and the byte budget in every reachable state, `QueueRuns` the properties of whole runs. `QueueDrain` drains
  against any server while other processes append, and returns its trace; `QueueDrainTheorems` says from the trace what
  became of every event, how the drain ends and how it fits into a run. `Delivery` composes it with batching and
  bisection.
  The drain lock does not exclude appends. Index agreement survives every interleaving; keeping an id in one place does
  not, and the exact condition under which it does is proved.
- **Token accounting** (`Usage*.dfy`). A max-keeping baseline and a separate cursor are saved after a durable append; a
  crash may fall between any two of the three. No usage is lost, and what is counted twice is bounded by the cut cycles.
  `UsageCutover` says where a bucket starts again when its accounting changes.
- **Fork de-duplication** (`Fork*.dfy`). Ranks, owners and max-merged offsets charge an invocation that was copied into
  a fork once. `ForkUsage` composes this with the token accounting.
- **Codex turns** (`Codex{Model,Scanner,Theorems,Reported,Forks}.dfy`). A resumable log scanner with counter-reset
  detection, seeding and fork suppression. `CodexReported` tells what a turn reports from the log's records alone.
- **Claude turns and transcripts** (`Claude*.dfy`, `Transcript*.dfy`). The (end, seen set) cursor and when a session
  reports (`ClaudeReports`), the usage bookkeeping and the turns of the transcript reader, and the chunking of messages.
- **Bundle upgrade** (`Bundle*.dfy`). Replacing files with rollback, every step of which may fail.
- **Locks** (`Lock*.dfy`). The two-level lock as a state machine over its atomic steps, with crashes: what it keeps
  (`LockTheorems`), and that a free path can be taken and a release frees it (`LockProgress`).
- **Configuration rewriting** (`CodexConfig*.dfy`) and **keyword search** (`KeywordSearch.dfy`).

Code that changes state in place is a class or a method with loops, proved against a specification function; the
theorems are lemmas about those functions.

Where the code does not do what one might expect of it, the model follows the code:

- A queued snapshot that is replaced between the read and the acknowledgement of its batch ends up both delivered and
  queued (`StaleAcknowledgeBreaksDisjoint`) and can be acknowledged twice (`ReplacedSnapshotIsAcknowledgedTwice`). Ids
  stay in one place exactly when every settled batch is still current (`RunDisjointIff`), and one id is acknowledged
  once and for all exactly when that id is never queued again between read and acknowledgement (`AtMostOnceIff`,
  `AcknowledgedAgainIff`).
- An event without an id that the server refuses cannot be quarantined: the drain that reaches it fails and leaves it
  queued (`BlankRefusalStopsDrain`, `StopsAtBlankIff`). `DrainEndsIff` says exactly when a drain fails.
- A retry after a failed restore can lose the old file (`RetryAfterFailedRestoreLosesOriginal`); `RetrySavesIff` says
  exactly when it does not.
- Looking at a lock file's age and removing it are two steps, so two callers can both take over from a dead process
  (`StaleRemovalAdmitsTwo`). Exclusion holds exactly as long as no live caller's file is removed (`RunExclusiveIff`).
- An invocation whose owner changes is queued again, because the baseline keeps what the old owner was charged
  (`MovedInvocationEndsLower`); `QueuedIsDistinctIff` says exactly when the queued deltas match the distinct usage.
- The skipping keyword search can miss a keyword such as `a+a` (`SkippingIsExactIff` says for which keywords).
- A return to an accounting used before measures a bucket from where that accounting's cursor had got, not from the
  cutover (`GrowthSinceCutoverIff`).
- A Codex turn context that names another turn, or an unnamed end, makes the scanner and the completed-turn parser
  disagree (`StrayContextIsMissed`, `NamelessEndIsMissed`). `EmittedCompletedIff` says exactly on which logs, and
  `ForkRepeatsNothingIff` what it means for a fork.

Check everything with `dafny verify dfyconfig.toml`.

## Model

| member | source | states |
|---|---|---|
| QueueModel.Oldest | pkg/eventqueue/queue_retention.go:41-64 | the front of the time order: some queued event precedes every other one by creation time, then sequence |
| QueueModel.TotalChargeInsert | pkg/eventqueue/queue_store.go:84-97 | a stored event raises the true byte sum by its encoded length plus one |
| QueueModel.LinesLength | pkg/eventqueue/queue_store.go:94-97 | the byte sum is the length of the text that writes each queued event in sequence order, a line break after each |
| QueueStore.Queue.constructor | pkg/eventqueue/queue_store.go:31-47 | a new database has every bucket empty and every counter at zero |
| QueueStore.Queue.IncrementMeta | pkg/eventqueue/queue_codec.go:23-34 | moves both counters, or neither when one would go below zero |
| QueueStore.Queue.DeleteQueuedEvent | pkg/eventqueue/queue_store.go:100-132 | removes the event and its entries in both id maps and the counters, the time key on request; on agreeing indexes it never reports an underflow |
| QueueStore.Queue.Delete | pkg/eventqueue/queue_store.go:100-132 | removing one sequence with its time key leaves exactly the database without that event, and all indexes agreeing |
| QueueStore.Queue.DeleteFirst | pkg/eventqueue/queue_retention.go:29-36 | removing the first time key and then its event is removing the event |
| QueueStore.Queue.PruneDelivered | pkg/eventqueue/queue_retention.go:66-90 | forgets exactly the delivered ids recorded before the cutoff, in both delivered indexes |
| QueueStore.Queue.PruneEvents | pkg/eventqueue/queue_retention.go:14-39 | removes exactly the events created before the cutoff and reports how many |
| QueueStore.Queue.PruneExpired | pkg/eventqueue/queue_retention.go:10-39 | both prunings in one transaction, with the two clock readings the code makes |
| QueueStore.Queue.EvictOverCapacity | pkg/eventqueue/queue_retention.go:41-64 | removes the oldest events until the byte count fits, exactly the overflow set |
| QueueStore.Queue.StoreEvent | pkg/eventqueue/queue_store.go:71-98 | stores under the next sequence and indexes by time, id and sequence; indexes still agree |
| QueueStore.Queue.InsertQueuedEvent | pkg/eventqueue/queue_store.go:49-98 | refuses quarantined, delivered and queued ids, replaces a queued snapshot, else stores; reports a duplicate exactly in the first two cases |
| QueueStore.Queue.CurrentStats | pkg/eventqueue/queue_store.go:206-222 | the reported count is that of the queued events, the bytes are the length of their text, the oldest time is theirs |
| QueueStore.Queue.InsertEvents | pkg/eventqueue/queue.go:89-101 | the events of an append in order; counts as expired exactly those without a creation time or created too long before they are looked at, and as duplicates exactly those of the others whose id is queued, delivered or quarantined by then |
| QueueStore.Queue.AppendWithStats | pkg/eventqueue/queue.go:73-110 | the whole append transaction and every counter it reports; the queue ends within its byte budget, measured on the text of its events |
| QueueStore.Queue.DrainWatermark | pkg/eventqueue/queue_store.go:134-152 | after pruning, the greatest queued sequence, none for an empty queue |
| QueueStore.Queue.NextDrainBatch | pkg/eventqueue/queue_store.go:154-183 | after pruning, the first 500 events at or below the watermark, in sequence order and without gaps |
| QueueStore.Queue.RecordDelivered | pkg/eventqueue/queue_index.go:35-49 | records an id once, replacing its older delivery time in both delivered indexes |
| QueueStore.Queue.AcknowledgeBatch | pkg/eventqueue/queue_store.go:185-204 | settles the batch entry by entry on whatever the database holds by then |
| QueueStore.MatchRejected | pkg/eventqueue/queue_quarantine.go:42-62 | succeeds exactly when at least one id is named, none is blank after trimming and all are ids of the batch |
| QueueStore.RejectedIdsOfEach | pkg/eventqueue/queue_quarantine.go:73-99 | a quarantine returns, in batch order, the id of each entry whose id was named |
| QueueStore.Queue.MoveRejected | pkg/eventqueue/queue_quarantine.go:73-99 | moves every named entry of the batch to quarantine and returns their ids in batch order |
| QueueStore.Queue.QuarantineRejected | pkg/eventqueue/queue_quarantine.go:37-100 | moves exactly the named events or changes nothing |
| QueueInvariants.ApplyAgrees | pkg/eventqueue/queue_store.go:49-132 | every transaction, on any batch however stale, keeps the five indexes and the counters in agreement |
| QueueInvariants.RunAgrees | pkg/eventqueue/queue_store.go:49-132 | index agreement in every state reachable from an empty database under any interleaving of transactions |
| QueueInvariants.OverflowDropsOldest | pkg/eventqueue/queue_retention.go:41-64 | what eviction drops precedes all it keeps, and what it keeps fits |
| QueueInvariants.OverflowIsLeast | pkg/eventqueue/queue_retention.go:41-64 | dropping any shorter run of oldest events would not fit |
| QueueInvariants.EvictionKeepsLongestSuffix | pkg/eventqueue/queue_retention.go:41-64 | the survivors of eviction are the longest suffix in time order that fits |
| QueueInvariants.RunBytesAreText | pkg/eventqueue/queue.go:101-104 | in every reachable state the byte counter is the length of the queued events' text, and that is within the limit |
| QueueInvariants.EvictionKeepsLongestText | pkg/eventqueue/queue_retention.go:41-64 | eviction keeps the longest run of newest events whose text fits |
| QueueRuns.AcknowledgeEffect | pkg/eventqueue/queue_store.go:185-204 | acknowledging removes exactly the batch's sequences and records exactly its ids |
| QueueRuns.QuarantineEffect | pkg/eventqueue/queue_quarantine.go:73-99 | quarantining removes and moves exactly the named entries |
| QueueRuns.QuarantineKeepsEvents | pkg/eventqueue/queue_quarantine.go:73-99 | a quarantined event is kept as it was, the last one of its id in the batch, and no other quarantine record changes |
| QueueRuns.AcknowledgeKeepsDisjointIff | pkg/eventqueue/queue_store.go:185-204 | acknowledging keeps queued, delivered and quarantined ids disjoint if and only if no id of the batch was quarantined or queued again meanwhile |
| QueueRuns.QuarantineKeepsDisjointIff | pkg/eventqueue/queue_quarantine.go:73-99 | the same for quarantining: if and only if no named id was delivered or queued again meanwhile |
| QueueRuns.ApplyKeepsDisjointIff | pkg/eventqueue/queue_store.go:49-204 | from disjoint ids, any transaction keeps them disjoint exactly when it settles a batch that is still current, or nothing |
| QueueRuns.RunDisjointIff | pkg/eventqueue/queue.go:127-177 | over any run with any interleaving: an id is queued, delivered or quarantined, never two of them, in every state, if and only if every settled batch was current |
| QueueRuns.RunDisjoint | pkg/eventqueue/queue.go:127-177 | with uninterleaved drain rounds every settled batch is current, so that ids are disjoint in every reachable state |
| QueueRuns.StaleAcknowledgeBreaksDisjoint | pkg/eventqueue/queue_store.go:59-68 | whenever a queued snapshot is replaced between read and acknowledgement its id ends both delivered and queued |
| QueueRuns.SnapshotCanBeReplaced | pkg/eventqueue/queue_store.go:59-68 | such a state exists one append away from the empty database |
| QueueRuns.AcknowledgedThenRetired | pkg/eventqueue/queue_retention.go:66-90 | once acknowledged an id is out of the queue, and remembered as delivered or already past the cutoff |
| QueueRuns.AcknowledgedAtMostOnce | pkg/eventqueue/queue.go:89-101 | with a clock that never goes back and rounds that follow one another, an id with a fixed creation time is acknowledged at most once over any run in which that id is never queued again between a read that returns it and its acknowledgement, whatever happens to other ids |
| QueueRuns.UninterleavedAtMostOnce | pkg/eventqueue/queue.go:127-177 | the same for uninterleaved rounds without further condition |
| QueueRuns.AcknowledgedLeavesIff | pkg/eventqueue/queue_store.go:185-204 | acknowledging an id leaves it out of the queue if and only if it was not queued again under a sequence the batch does not hold |
| QueueRuns.AcknowledgedAgainIff | pkg/eventqueue/queue.go:127-177 | just acknowledged, an id can be acknowledged again by some way the lock and the clock allow the run to go on if and only if it is still queued, that is if and only if it was queued again between read and acknowledgement |
| QueueRuns.AtMostOnceIff | pkg/eventqueue/queue.go:127-177 | over any run: each prefix that has acknowledged the id keeps it at one acknowledgement however it is continued, if and only if the run never queues the id again between a read that returns it and its acknowledgement |
| QueueRaces.ReplacedSnapshotIsAcknowledgedTwice | pkg/eventqueue/queue_store.go:59-68 | a run with rounds that follow one another, in which a snapshot appended again between read and acknowledgement is acknowledged twice |
| QueueRuns.ReappendChangesNothing | pkg/eventqueue/queue_store.go:51-69 | appending events again changes nothing while each is queued, delivered, quarantined or too old |
| QueueRuns.AppendTwiceChangesNothing | pkg/eventqueue/queue.go:73-110 | the whole append transaction run twice on the same events leaves the database of the first run, if they fitted, none is a snapshot and nothing has expired since |
| QueueRuns.InsertAllAddsUnknown | pkg/eventqueue/queue_store.go:49-98 | appending events that are not snapshots moves no queued event, and adds only ids the queue did not know |
| QueueRuns.OnlyFirstVersionEnters | pkg/eventqueue/queue_store.go:49-98 | of several versions of one event that is not a snapshot an append queues the first that is not too old, and none while its id is queued, delivered or quarantined |
| QueueDrain.Interfere | pkg/eventqueue/queue.go:73-110 | appends that land in one gap of a drain are steps of it, and raise no event to or below the watermark |
| QueueDrain.ReadBatch | pkg/eventqueue/queue_store.go:154-183 | a read is a step of the drain, and returns the next batch at or below the watermark |
| QueueDrain.SettleBatch | pkg/eventqueue/queue.go:151-176 | acknowledges an accepted batch, quarantines what a rejection names, or ends the drain; a settlement takes at least one event at or below the watermark out |
| QueueDrain.Drain | pkg/eventqueue/queue.go:127-177 | terminates under any server and any interleaved appends; its trace of reads, sends with answers, settlements and appends is legal, replaying it gives the new database, the result is the one its last send calls for, and a drained queue holds nothing queued before the start |
| QueueDrainTheorems.AppendRemovesIff | pkg/eventqueue/queue.go:73-110 | an append removes a queued event exactly when it is past retention at that append, superseded by a snapshot of it, or among its overflow |
| QueueDrainTheorems.PruneForgetsIff | pkg/eventqueue/queue_retention.go:66-90 | pruning forgets a delivered id exactly when it was recorded more than the maximum age before the first clock reading, and records none |
| QueueDrainTheorems.StepRemovesIff | pkg/eventqueue/queue.go:127-177 | each step of a drain removes exactly what it is meant to: expired events, the batch, the named entries, or what an append removes |
| QueueDrainTheorems.EventsLeaveOnce | pkg/eventqueue/queue.go:127-177 | an event queued when a drain begins is still queued, unchanged, exactly when no step took it out, and at most one step did |
| QueueDrainTheorems.SettlementAnswersSend | pkg/eventqueue/queue.go:151-176 | every settlement settles the batch of the send just before it, acknowledging only what was accepted and quarantining exactly the trimmed ids that send was rejected with |
| QueueDrainTheorems.DrainConserves | pkg/eventqueue/queue.go:127-177 | conservation: each event queued at the start is still queued, or left at exactly one step, there past retention at that reading, accepted and recorded, named and quarantined, or removed by that append for its reason |
| QueueDrainTheorems.DrainEndsIff | pkg/eventqueue/queue.go:151-176 | a drain fails to quarantine if and only if a send it made was rejected with ids that cannot be quarantined from its batch, and fails to send if and only if one failed or was rejected without ids |
| QueueDrainTheorems.DrainIsDetermined | pkg/eventqueue/queue.go:127-177 | the contract of the drain leaves nothing open: the queue, the server's answers, the clock and the appends decide its watermark, every step and its result |
| QueueDrainTheorems.QuietGapsAreUndisturbed | pkg/eventqueue/queue.go:127-177 | a drain in a world where appends land only before its reads has none between a send and its settlement |
| QueueDrainTheorems.DrainExtendsRun | pkg/eventqueue/queue.go:127-177 | a drain, with the appends that land in it, continues any run: its rounds follow one another, and are uninterleaved when no append falls between a send and its settlement |
| QueueDrainTheorems.DrainAcknowledgesAtMostOnce | pkg/eventqueue/queue.go:127-177 | so after any run and through any drain an id is acknowledged at most once while that id is never queued again between its read and its acknowledgement, and without that condition in an undisturbed drain, which also keeps ids disjoint |
| QueueCodec.FromBigEndianInverts | pkg/eventqueue/queue_codec.go:94-105 | decoding inverts encoding of numbers that fit |
| QueueCodec.BigEndianOrder | pkg/eventqueue/queue_codec.go:94-105 | byte order of big-endian keys is numeric order |
| QueueCodec.DecodeQueueTimeKeyInverts | pkg/eventqueue/queue_codec.go:62-76 | the 16-byte time key decodes to its timestamp and sequence over all 64-bit values |
| QueueCodec.QueueTimeKeyOrder | pkg/eventqueue/queue_codec.go:62-76 | the byte order of time keys is signed timestamp order, then sequence order |
| QueueCodec.DecodeDeliveredTimeKeyInverts | pkg/eventqueue/queue_codec.go:78-92 | a delivered key decodes to its parts, and fails exactly for an empty id |
| QueueCodec.DeliveredTimeKeyOrder | pkg/eventqueue/queue_codec.go:78-92 | delivered keys order by signed timestamp first |
| GreedySplit.GreedyIsSplit | pkg/controlclient/client.go:120-154 | the greedy chunks are non-empty, concatenate to the input in order, and each fits unless it is a single element |
| GreedySplit.GreedyMonotone | pkg/controlclient/client.go:120-154 | dropping elements from the front never costs a chunk |
| GreedySplit.GreedyIsMinimal | pkg/controlclient/client.go:120-154 | for limits that parts inherit, no other in-order split has fewer chunks |
| ControlClient.SplitEventBatches | pkg/controlclient/client.go:120-154 | fails exactly for a non-positive limit on some events; otherwise the batches are the events in order, each request body is within the limit unless it is one event, and no other such split has fewer |
| ControlClient.EncodedSizeIsBody | pkg/controlclient/client.go:120-154 | the size added up event by event is the length of the request body |
| ControlClient.Wire.SendEventBatch | pkg/controlclient/client.go:156-172 | the recursive send posts, accepts and fails as the bisection over the halves says |
| ControlClient.BisectAccounts | pkg/controlclient/client.go:156-172 | against any server: at most 2n-1 posts; the accepted events are a prefix, each in a post the server took, and all of them exactly when the send succeeds; a rejection names the next event, to which alone the server said 400 or 413; otherwise some post got another answer |
| ControlClient.BisectIsLogarithmic | pkg/controlclient/client.go:156-172 | against a server that rejects exactly the batches with a bad event, halving finds the first one among n with at most 1 + 2 log n posts |
| ControlClient.SendAllAccounts | pkg/controlclient/client.go:108-118 | the same for a whole request, batch after batch |
| ControlClient.BisectFindsFirst | pkg/controlclient/client.go:156-172 | against a server whose acceptance is closed under sub-batches: a failed send reports the first individually rejected event after the accepted prefix before it |
| ControlClient.SendAllFindsFirst | pkg/controlclient/client.go:108-118 | the same across all batches of a request |
| Delivery.SendBatches | pkg/controlclient/client.go:112-117 | batches go out in order until one is not sent |
| Delivery.SendEventsForDaemon | pkg/controlclient/client.go:85-118 | filter, bind, split and send against any server: accepted exactly when the server took every uploaded event, rejected with the id of the first one not taken, to which alone it said 400 or 413, failed after any other answer |
| Delivery.UploadOfEach | pkg/controlclient/client.go:85-118 | the upload holds exactly the uploadable events, bound, each in its place |
| Delivery.BatchesWithinLimit | pkg/controlclient/client.go:85-118 | the bodies posted stay within 8 MiB, unless a single event is larger, and no other such split has fewer |
| Delivery.SendOutcomeMeans | pkg/controlclient/client.go:85-118 | what each outcome says the server did, for every server |
| Delivery.SendOutcomeExact | pkg/controlclient/client.go:85-118 | a send is accepted exactly when no event is refused, else it names the first refused one |
| Delivery.QuarantinableIff | pkg/eventqueue/queue_quarantine.go:42-62 | the rejection of one event can be quarantined exactly when its trimmed id is not empty and an id of the batch |
| Delivery.SentExact | pkg/controlclient/client.go:85-118 | each send of a drain is accepted exactly when its batch holds no refused event, else names the first refused one |
| Delivery.AcknowledgedWasTaken | pkg/eventqueue/queue.go:151-176 | whatever the servers do, an event a drain acknowledges is not uploadable or was taken by the server its batch was sent to |
| Delivery.EveryEventIsHandled | pkg/eventqueue/queue.go:127-177 | whatever the servers do: every event queued at the start is still queued, left by an append or for its age, was acknowledged and taken, or was quarantined and rejected alone |
| Delivery.FailedWasBroken | pkg/eventqueue/queue.go:151-176 | a drain that fails to send got an answer to some post that neither takes nor rejects |
| Delivery.CannotQuarantineIff | pkg/eventqueue/queue_quarantine.go:42-62 | of the sends of a drain none fails, and the rejected ones that cannot be quarantined are exactly those whose first refused event has no id or none found in the batch |
| Delivery.EveryEventIsAccounted | pkg/eventqueue/queue.go:127-177 | conservation against the server's own decisions: acknowledged events are accepted ones, and a quarantined event carries the id of the first one refused and is that one if the id is clean |
| Delivery.DrainToServer | pkg/eventqueue/queue.go:127-177 | drain, client and any servers together: every event is accounted for by what the server said to it, and a failed send means some such answer; for a server that decides on events by themselves, it fails to quarantine exactly when some batch it sent was unanswerable |
| Delivery.BlankRefusalStopsDrain | pkg/eventqueue/queue_quarantine.go:42-51 | a drain with a refused event without an id ends in a failed quarantine and leaves the event queued, unless it expires or an append removes it |
| Delivery.StopsAtBlankIff | pkg/eventqueue/queue_quarantine.go:42-51 | when nothing else takes the refused events and their ids are clean or blank: a drain fails to quarantine if and only if a refused event without an id was queued |
| Delivery.DrainSortsEvents | pkg/eventqueue/queue.go:127-177 | when refused ids are clean, an event taken only by settlements leaves the queue, into quarantine exactly when the server refuses it and otherwise acknowledged and recorded |
| UsageAgent.AddBaselineSession | pkg/daemon/session_baseline.go:240-334 | one record of the max-keeping baseline, with the total it last advanced from; unchanged means unchanged |
| UsageAgent.JudgeBucket | pkg/daemon/claude_baseline.go:96-139 | what becomes of one bucket: passed on with a hint, only recorded, or ignored |
| UsageAgent.FilterUsageBaseline | pkg/daemon/claude_baseline.go:96-139 | every bucket of a collection judged against the baseline as loaded, with the ignored keys counted |
| UsageAgent.UsageDeltaFromEvent | pkg/daemon/usage_delta.go:89-179 | the delta is measured from the cursor, else the hint, else zero for a bucket tracked from its start, else only the cursor is seeded |
| UsageAgent.BuildUsageDeltaEvents | pkg/daemon/usage_delta.go:58-87 | all deltas are measured against the loaded cursors; the next cursors are the observed totals |
| UsageAgent.Agent.CollectAndQueue | pkg/daemon/runner.go:115-163 | one collection: append, then baseline, then cursors, cut anywhere between |
| UsageRuns.BucketsAreIndependent | pkg/daemon/usage_delta.go:58-87 | with one payload per bucket a cycle moves each bucket as if it were the only one |
| UsageRuns.CycleAccounts | pkg/daemon/claude_baseline.go:96-139 | a cycle, cut anywhere, keeps the books of a bucket: the cursor never passes the baseline, and what is queued covers the growth |
| UsageRuns.RunAccounts | pkg/daemon/runner.go:115-163 | the books balance over every run of cycles, cut or not |
| UsageRuns.UsageNeverLost | pkg/daemon/runner.go:115-163 | the queued deltas of a bucket add up to at least its greatest observed growth, and exceed it by at most the deltas of cycles cut between append and cursor save |
| UsageRuns.UncutIsExact | pkg/daemon/runner.go:115-163 | without such cuts the sum is exact |
| UsageRuns.CountedOnceIff | pkg/daemon/usage_delta.go:58-87 | whatever a collection repeats: the deltas queued for a bucket are at least how far it was seen to go from the loaded cursor, and exactly that if and only if at most one payload advances it |
| UsageRuns.AdvancesIff | pkg/daemon/claude_baseline.go:96-139 | a payload advances its bucket if and only if its total passes the recorded one, or meets it while the cursor is still behind |
| UsageRuns.RepeatedBucketCountsTwice | pkg/daemon/usage_delta.go:58-87 | two payloads of one bucket in a cycle are both measured from the loaded cursor, so their totals are both queued |
| UsageCutover.CutoverQueuesNothing | pkg/daemon/claude_baseline.go:108-112 | a payload that announces or shows a change of accounting queues nothing for its session and moves none of its cursors |
| UsageCutover.CutoverRestarts | pkg/daemon/session_baseline.go:247-263 | the session is then remembered at that payload's total and accounting alone |
| UsageCutover.AfterCutover | pkg/daemon/usage_delta.go:89-179 | the next collection queues what passes the cursor saved under the new accounting, or that total if there is none |
| UsageCutover.GrowthSinceCutoverIff | pkg/daemon/usage_delta.go:89-179 | so it queues the growth since the cutover if and only if no cursor, or one at that total, is saved under the new accounting |
| UsageCutover.FirstTotalIsRecorded | pkg/daemon/claude_baseline.go:113-128 | the first total of a session remembered without one queues nothing and is where the session is counted from |
| ForkAccounting.AssignSessionRanks | pkg/daemon/claude_fork_accounting.go:100-113 | old ranks stay, new sessions rank above them in hash order, ranks stay unique |
| ForkAccounting.AccountingOccurrences | pkg/daemon/claude_fork_accounting.go:115-148 | for every identity, exactly the sessions that contain it |
| ForkAccounting.ResolveOwners | pkg/daemon/claude_fork_accounting.go:150-168 | an identity found in two or more sessions, and no other, is owned by the one of least rank |
| ForkAccounting.OwnersAreRight | pkg/daemon/claude_fork_accounting.go:150-168 | an invocation is someone else's exactly when a session of lower rank has a copy |
| ForkAccounting.SessionOffsets | pkg/daemon/claude_fork_accounting.go:170-193 | per bucket the larger of the stored offset and what the inherited invocations add up to |
| ForkAccounting.MergeOffsets | pkg/daemon/claude_fork_accounting.go:285-296 | the bucket-wise, tier-wise maximum |
| ForkAccounting.ApplyInheritedOffsets | pkg/daemon/claude_fork_accounting.go:195-211 | per bucket the recorded usage minus the offset, clipped at zero; the total is the sum of what is left |
| ForkAccounting.MergeInvocations | pkg/daemon/claude_transcript_merge.go:118-148 | one entry per id, a copy with the largest total |
| ForkAccounting.RebuildInvocationTotals | pkg/daemon/claude_transcript_merge.go:150-162 | buckets and total are the sums of the invocations |
| ForkAccounting.AccountSessions | pkg/daemon/claude_fork_accounting.go:64-82 | offsets and reduced usage of every session, given the owners |
| ForkAccounting.PrepareForkAccounting | pkg/daemon/claude_fork_accounting.go:38-87 | one collection: ranks, owners, offsets and accounted usage as specified |
| ForkModel.BucketsPartition | pkg/daemon/claude_transcript_merge.go:150-162 | summing by bucket and then over the buckets is summing over the invocations |
| ForkRuns.SessionExact | pkg/daemon/claude_fork_accounting.go:195-211 | stored offsets equal observed ones, clipping never bites, and the session is charged exactly the invocations it owns |
| ForkRuns.OwnedCoversAll | pkg/daemon/claude_fork_accounting.go:150-168 | every distinct invocation is owned by some session |
| ForkRuns.OwnersDiffer | pkg/daemon/claude_fork_accounting.go:150-168 | and by only one |
| ForkRuns.CollectionConserves | pkg/daemon/claude_fork_accounting.go:38-87 | a collection whose stored offsets are not ahead charges each distinct invocation once |
| ForkRuns.StaysBehind | pkg/daemon/claude_fork_accounting.go:170-193 | while sessions only grow, stored offsets never get ahead of observed ones |
| ForkRuns.RunConserves | pkg/daemon/claude_fork_accounting.go:100-211 | at every collection of a growing run the accounted totals of all sessions add up to the usage of the distinct invocations |
| ForkUsage.QueuedIsDistinctIff | pkg/daemon/claude_collect.go:26-47 | fork and usage accounting together, over a growing run of uncut collections: the queued deltas of all buckets add up to at least the growth of the distinct invocations' usage, and to exactly that if and only if no bucket was ever charged more than at the end |
| ForkUsage.SteadyOwnersAreExact | pkg/daemon/claude_fork_accounting.go:150-168 | that is so while sessions keep the invocations they own |
| ForkUsage.OwnershipMovesTo | pkg/daemon/claude_fork_accounting.go:150-168 | an invocation changes owner only to a session ranked before, below the old owner, that has gained a copy |
| ForkUsage.MovedInvocationEndsLower | pkg/daemon/claude_fork_accounting.go:195-211 | a run of two collections in which it does, and a bucket ends below its highest charge |
| CodexScanner.Tracker.UpdateTokenTotals | pkg/turn/codex_parser.go:64-87 | the counter moves to the report, its input without what was read from the cache; a fall in any tier marks the open turn; the first count after seeding is a starting point |
| CodexScanner.Tracker.CompleteTurn | pkg/turn/codex_parser.go:89-142 | closes the open turn and emits, reports a reset, or neither |
| CodexScanner.Tracker.ProcessRecord | pkg/turn/codex_parser.go:17-40 | one record of any kind, including text scoring of the open turn |
| CodexScanner.ReadLine | pkg/turn/codex.go:254-262 | the end of a complete line, none for an unfinished one |
| CodexReported.LinesAreRead | pkg/turn/codex.go:244-274 | a scan reads each complete line as it stands and stops before an unfinished one |
| CodexScanner.ScanCodex | pkg/turn/codex.go:244-274 | the read loop scans exactly the complete lines after the cursor |
| CodexScanner.SeedCursor | pkg/turn/codex.go:219-242 | seeding scans the tail quietly and rebases the open turn |
| CodexScanner.FollowRecord | pkg/turn/codex.go:176-188 | one record of the simpler parser for completed turns |
| CodexScanner.CompletedTurnIds | pkg/turn/codex.go:158-196 | the completed turns of a whole file, its unfinished last line included |
| CodexTheorems.AfterJoin | pkg/turn/codex.go:244-274 | scanning two stretches of records one after the other is scanning them together |
| CodexTheorems.ScanningIsResumable | pkg/turn/codex.go:244-274 | scanning a file prefix cut anywhere and resuming on the whole file gives the cursor, events and reports of one scan |
| CodexTheorems.TurnsMeasure | pkg/turn/codex_parser.go:64-87 | an open turn holds, per tier, the counter's rises in its window, and knows whether any tier fell in it |
| CodexTheorems.TurnTokensExact | pkg/turn/codex_parser.go:89-142 | a turn is emitted exactly when it ends under its id, is not inherited, no tier fell in its window and the window used tokens; its tokens are the window's increments |
| CodexReported.CursorStandsFor | pkg/turn/codex_parser.go:153-168 | the counter always stands for the last report: its fields, input without what was read from the cache |
| CodexReported.EmittedTurnReports | pkg/turn/codex_parser.go:89-142 | an emitted turn says, in terms of the records: output, cache reads and cache writes are the increases of the reported fields over its window, input plus cache reads that of the reported input where reports never cache more than they read, and id, times, model, work type and abortion come from its records |
| CodexReported.FallsIff | pkg/turn/codex_parser.go:64-87 | the counter falls exactly when a reported field, or the uncached input, does |
| CodexReported.ResetReports | pkg/turn/codex_parser.go:89-142 | a finished turn reports a reset exactly when the counter fell in its window, with the reports before and after the last fall |
| CodexTheorems.ProcessBounds | pkg/turn/codex_parser.go:17-40 | a record moves tokens from pending to emitted and adds at most the counter's rise |
| CodexTheorems.EmittedBounded | pkg/turn/codex_parser.go:17-40 | emitted windows are disjoint: over a whole run emitted and pending tokens are bounded, per tier, by the counter's positive increments |
| CodexTheorems.SeedingForgetsThePast | pkg/turn/codex.go:219-242 | after seeding, whatever is emitted is bounded by the increments of later records alone |
| CodexReported.SeededCursorReports | pkg/turn/codex.go:219-242 | a seeded cursor stands after the last complete line with the counter last reported in the last 8 MiB, waits for a starting point exactly when none was, and counts the turn left open there from now on |
| CodexTheorems.QuietScanEmitsNothing | pkg/turn/codex.go:219-242 | a scan with emission off emits nothing |
| CodexForks.EmittedAreCompleted | pkg/turn/codex.go:158-196 | for logs whose contexts name no other turn and whose ends are named or end a started turn, every emitted turn is found completed by the simpler parser |
| CodexForks.EmissionCompletedIff | pkg/turn/codex.go:176-188 | at the record that emits a turn, on any log, the simpler parser completes it if and only if it follows that turn, or follows none and the end names its turn |
| CodexForks.EmittedCompletedIff | pkg/turn/codex.go:158-196 | on any log an emitted turn is found completed if and only if that holds where it is emitted, or another record completes the same id |
| CodexForks.ScanCompletedIff | pkg/turn/codex.go:158-196 | over a whole scan every emission is completed at its own record if and only if that holds at every emission |
| CodexForks.CompletedGrows | pkg/turn/codex.go:158-196 | what a log completes stays completed as it grows |
| CodexForks.InheritedNeverEmitted | pkg/turn/codex_parser.go:42-62 | a scan that starts with no open turn emits no turn the parent has completed |
| CodexForks.ForkNeverRepeatsParent | pkg/turn/codex.go:135-196 | a fork that inherits its parent's completed turns and starts without an open turn reports none of the turns a scan of the parent's file reports, if the parent's log is tidy: its contexts name no other turn and its ends are named or end a started turn |
| CodexForks.ForkRepeatsNothingIff | pkg/turn/codex.go:135-196 | a fork whose file begins with a copy of its parent's records reports none of the parent's turns again if and only if it inherits every turn the parent reports |
| CodexForks.StrayContextIsMissed | pkg/turn/codex.go:158-196 | a context naming another turn than the started one makes the parsers disagree |
| CodexForks.NamelessEndIsMissed | pkg/turn/codex.go:158-196 | so does an unnamed end of a turn opened by its context alone |
| ClaudeTurns.SortTurns | pkg/turn/claude.go:54-59 | the same turns by end, then by id in the order of strings |
| ClaudeTurns.WalkSession | pkg/turn/claude.go:60-90 | one session's turns in order; the cursor is reported moved exactly when it has moved |
| ClaudeTurns.CollectClaude | pkg/turn/claude.go:27-100 | the collection over all sessions: usages, next cursors and whether there is anything to save |
| ClaudeReports.EveryUsageIsDue | pkg/turn/claude.go:41-90 | every usage describes a countable turn, not inherited, of a session that is due: not in the first collection, not there only to seed, and known or begun no earlier than the first collection |
| ClaudeReports.FirstCollectionReportsNothing | pkg/turn/claude.go:50-50 | the first collection reports nothing |
| ClaudeReports.ReportedIffDue | pkg/turn/claude.go:41-90 | a countable turn without an inherited copy is reported if and only if its session is due and the stored cursor has not passed it |
| ClaudeReports.CollectPasses | pkg/turn/claude.go:60-90 | a collection passes every countable turn of its sessions, reported or not |
| ClaudeReports.HistoryIsNeverReported | pkg/turn/claude.go:41-118 | over any run, nothing the first committed collection found is ever reported |
| ClaudeReports.StartedAtFirst | pkg/turn/claude.go:93-99 | the store keeps the time of the first committed collection |
| ClaudeReports.EarlierSessionIsSeeded | pkg/turn/claude.go:50-50 | a session begun before that and never seen is not reported when it first comes |
| ClaudeTurnRuns.UnsavedIsUnchanged | pkg/turn/claude.go:93-99 | nothing is saved only when no cursor changed |
| ClaudeTurnRuns.VisitAllWalks | pkg/turn/claude.go:102-118 | a walk reports only turns its cursor had not passed, has passed them afterwards, and reports none twice |
| ClaudeTurnRuns.WalkReportsIff | pkg/turn/claude.go:60-90 | with reporting on, a valid turn without an inherited copy is reported exactly when the cursor had not passed it |
| ClaudeTurnRuns.CollectReportsIff | pkg/turn/claude.go:27-100 | the same for a whole collection and the stored cursor |
| ClaudeTurnRuns.ReportedAtMostOnce | pkg/turn/claude.go:41-118 | over repeated committed collections each session, turn and end is reported at most once |
| ClaudeTurnRuns.ReportedExactlyOnce | pkg/turn/claude.go:41-118 | a valid turn some committed round sees in time, in a session that reports, is reported exactly once over the whole run |
| ClaudeTurnRuns.PassedIsNeverReported | pkg/turn/claude.go:102-109 | a turn that ends before its session's cursor is never reported |
| ClaudeTurnRuns.LostCommitRepeats | pkg/daemon/claude.go:84-90 | after a lost commit the next collection brings the same turn under the same event id and creation time |
| ClaudeTurnRuns.ReappendingTurnsChangesNothing | pkg/eventqueue/queue_store.go:51-69 | appending those events again leaves the queue unchanged while their ids are queued, delivered or quarantined, or they are too old |
| ClaudeTurnRuns.LostCommitChangesNothing | pkg/daemon/claude.go:84-90 | append, lose the commit, collect the same sessions again and append again: the queue is as after the first append, while the events fit and nothing expires in between |
| ClaudeTurnRuns.LostCommitAddsOnlyNew | pkg/daemon/claude.go:84-90 | when sessions have grown meanwhile, the second append moves no queued event and adds only turns whose ids the queue does not know |
| ClaudeTurnRuns.CollectInOrder | pkg/turn/claude.go:54-90 | a collection reports the turns of each session in the order of their ends |
| ClaudeTurnRuns.TurnVersionQueued | pkg/turn/claude.go:60-90 | a turn reported again with a later end has the same event id: while the queue knows the id no version enters, otherwise the young enough version with the earliest end does |
| TranscriptReader.Accumulator.StartUserTurn | pkg/daemon/claude_transcript_parse.go:242-261 | a readable user message closes the open turn and opens another |
| TranscriptReader.Accumulator.ChargeUsage | pkg/daemon/claude_transcript_parse.go:217-240 | total, bucket and invocations grow by the same usage, or nothing does for zero usage |
| TranscriptReader.Accumulator.AddAssistantUsage | pkg/daemon/claude_transcript_parse.go:164-196 | a message is counted exactly when its model is real, its id is new or missing, and it used tokens |
| TranscriptReader.Accumulator.AddTurnUsage | pkg/daemon/claude_transcript_parse.go:263-279 | assigns usage to the open turn exactly when there is one and the record has a time |
| TranscriptReader.ReadTranscript | pkg/daemon/claude_transcript_parse.go:99-133 | all records in order |
| TranscriptTheorems.AddCounts | pkg/daemon/claude_transcript_parse.go:164-240 | only a counted record changes total, buckets and invocations, all by its usage |
| TranscriptTheorems.ReadBalanced | pkg/daemon/claude_transcript_parse.go:164-240 | after every prefix of any transcript total = sum of buckets = sum of invocations |
| TranscriptTheorems.BucketsExact | pkg/daemon/claude_transcript_parse.go:217-240 | each model and day bucket is, tier by tier, the sum of its own invocations |
| TranscriptTheorems.EachMessageOnce | pkg/daemon/claude_transcript_parse.go:164-174 | the invocations are exactly those of the first record of each message id (and of records without one) of a real model that used tokens, each with its own name, time, model, day and usage |
| TranscriptTheorems.TurnsAndLossesMakeTotal | pkg/daemon/claude_transcript_parse.go:242-316 | for every transcript: total = finished and internal turns + open turn + what records without a usable time lose |
| TranscriptTheorems.TimedTurnsMakeTotal | pkg/daemon/claude_transcript_parse.go:99-133 | with times that never go back nothing is lost: total = sum of turns |
| TranscriptTheorems.TurnsMakeTotalIff | pkg/daemon/claude_transcript_parse.go:303-316 | without negative tokens the turns make the total if and only if no record closes a turn in vain or lacks a time |
| TranscriptTurns.TurnsAreRead | pkg/daemon/claude_transcript_parse.go:242-316 | the turns are exactly those the records make: each user message opens one and aborts the open one, a joining record that does not go on with a tool completes it, timed usage outside a turn is a turn by itself; with their names, times and usage |
| TranscriptChunks.RememberUnseen | pkg/daemon/transcript_chunk.go:41-58 | the new messages, each version once, and the bounded list of versions |
| TranscriptChunks.PrepareChunks | pkg/daemon/transcript_chunk.go:30-91 | the greedy chunks, numbered on from the cursor, and the next cursor |
| TranscriptChunks.SeedCursor | pkg/daemon/transcript_chunk.go:93-115 | seeding remembers the same versions without chunks or numbers |
| TranscriptChunks.ChunksAreMinimalSplit | pkg/daemon/transcript_chunk.go:61-91 | chunks hold the new messages in order, within 64 messages, 128 KiB of encoded text and one date unless single, numbers are consecutive, and no other such split has fewer |
| TranscriptChunks.UnseenIsNew | pkg/daemon/transcript_chunk.go:48-57 | what is chunked is, in order, the first message of each version that is not held |
| TranscriptChunks.NewestAreKept | pkg/daemon/transcript_chunk.go:117-122 | the cursor holds the newest versions: all of them up to 4096, else the last 4096 |
| TranscriptChunks.RerunEmitsNothing | pkg/daemon/transcript_chunk.go:117-122 | running again with the returned cursor emits nothing while at most 4096 versions are held |
| TranscriptChunks.RerunEmitsNothingIff | pkg/daemon/transcript_chunk.go:117-122 | for a transcript that keeps its messages: if and only if it has at most 4096 different versions |
| BundleUpgrade.Volume.RestoreBackups | pkg/agentupgrade/upgrade_helper_windows.go:240-257 | tries every file and reports whether every step worked |
| BundleUpgrade.Volume.BackUpTargets | pkg/agentupgrade/upgrade_helper_windows.go:198-226 | the backup loop with its rollback |
| BundleUpgrade.Volume.InstallTargets | pkg/agentupgrade/upgrade_helper_windows.go:228-237 | the install loop with its rollback |
| BundleUpgrade.Volume.PrepareTargets | pkg/agentupgrade/upgrade_helper_windows.go:189-196 | the copy loop, stopping at the first copy that fails |
| BundleUpgrade.Volume.ReplaceBundle | pkg/agentupgrade/upgrade_helper_windows.go:185-238 | one attempt, its deferred removals included |
| BundleUpgrade.Volume.RetryBundle | pkg/agentupgrade/upgrade_helper_windows.go:166-179 | attempts until one works or the deadline has passed |
| BundleTheorems.RestoreSound | pkg/agentupgrade/upgrade_helper_windows.go:240-257 | from saved files, each is put back or kept in its backup; all are back when every step worked |
| BundleTheorems.BackUpSound | pkg/agentupgrade/upgrade_helper_windows.go:198-226 | backing up saves every file, or gives up all-or-nothing |
| BundleTheorems.InstallSound | pkg/agentupgrade/upgrade_helper_windows.go:228-237 | installing leaves every target new with its old content saved, or gives up all-or-nothing |
| BundleTheorems.ReplaceIsAllOrNothing | pkg/agentupgrade/upgrade_helper_windows.go:185-238 | under any faults: success leaves every target new with its old content or absence in .prev, a failure whose restore worked leaves every target as it was, no old content is lost, other files are untouched |
| BundleTheorems.SuccessSavesInPrev | pkg/agentupgrade/upgrade_helper_windows.go:185-238 | success leaves the new content in every target and the old one, or its absence, under .prev; no file but targets, .prev and .next is ever touched |
| BundleTheorems.NothingLeftBeside | pkg/agentupgrade/upgrade_helper_windows.go:189-196 | without faults no attempt, successful or not, leaves a .next file that was not there before |
| BundleTheorems.EmptyBundleFails | pkg/agentupgrade/upgrade_helper_windows.go:185-188 | a bundle without files is refused however often it is tried, and nothing is touched |
| BundleTheorems.RestoringUndoesSuccess | pkg/agentupgrade/upgrade_helper_windows.go:79-89 | restoring after a success brings the originals back |
| BundleTheorems.RetryIsAllOrNothing | pkg/agentupgrade/upgrade_helper_windows.go:166-179 | all-or-nothing through the retry loop while failed attempts could restore |
| BundleTheorems.RetrySavesIff | pkg/agentupgrade/upgrade_helper_windows.go:166-179 | a retry loop that installs in the end has saved an original, present and not what is installed, if and only if every failed attempt of it left that target as it was |
| BundleTheorems.LostStaysLost | pkg/agentupgrade/upgrade_helper_windows.go:166-226 | once an attempt has left a target without its original, no later attempt of the loop brings it back and no success saves it |
| BundleTheorems.RetryAfterFailedRestoreLosesOriginal | pkg/agentupgrade/upgrade_helper_windows.go:201-210 | after a failed restore a retry can succeed and leave the old content nowhere |
| BundleTheorems.FaultlessReplaceInstalls | pkg/agentupgrade/upgrade_helper_windows.go:185-238 | without faults a bundle whose sources exist is installed |
| LockRegistry.SharedLocks.EnterRegistry | pkg/lockfile/lock.go:123-131 | finds or makes the process lock and counts a reference; every invariant is kept |
| LockRegistry.SharedLocks.TryToken | pkg/lockfile/lock.go:133-152 | takes the token exactly when no caller has it |
| LockRegistry.SharedLocks.ReturnToken | pkg/lockfile/lock.go:161-167 | putting the token back always has room |
| LockRegistry.SharedLocks.ReleaseReference | pkg/lockfile/lock.go:170-177 | drops a reference, and the entry with the last one if it still names this lock |
| LockTheorems.AdvanceSound | pkg/lockfile/lock.go:31-177 | every step of a caller keeps tokens, references and registry in order |
| LockTheorems.CrashSound | pkg/lockfile/lock.go:31-177 | so does the death of a process |
| LockTheorems.RunSound | pkg/lockfile/lock.go:31-177 | under every interleaving: tokens plus holders of a process lock is one, references are counted exactly, the registry names only used locks |
| LockTheorems.ReleaseNeverBlocks | pkg/lockfile/lock.go:161-167 | a caller that has the token finds the channel empty |
| LockTheorems.OneHolderPerLock | pkg/lockfile/lock.go:122-168 | at most one caller has a process lock's token, stale files or not |
| LockTheorems.EntryRemovedOnlyByItsOwn | pkg/lockfile/lock.go:170-177 | an entry goes only with the last reference to the lock it names or by stale retirement: a retired lock never deletes its successor's entry |
| LockTheorems.StepExclusiveIff | pkg/lockfile/lock.go:31-120 | from a state in which the one owner, if any, made the existing lock file, a step leads to another such state if and only if it does not remove, as stale, a live caller's file |
| LockTheorems.RunExclusiveIff | pkg/lockfile/lock.go:31-120 | over any run with crashes: every state is such a state if and only if no step removes, as stale, a live caller's file |
| LockTheorems.MutualExclusion | pkg/lockfile/lock.go:31-105 | so at most one caller of all processes holds the path as long as no step does |
| LockTheorems.CalmSparesLiveFiles | pkg/lockfile/lock.go:31-105 | in particular when no lock file is ever found stale |
| LockTheorems.LiveRemovalAdmitsTwo | pkg/lockfile/lock.go:31-120 | every such removal can go on to two callers holding the path |
| LockTheorems.DeadProcessLeavesFile | pkg/lockfile/lock.go:31-105 | a process that dies with the path held leaves its lock file and no callers |
| LockTheorems.StaleRemovalAdmitsTwo | pkg/lockfile/lock.go:107-120 | when a dead process has left a stale file, two callers that both found it stale can both end up holding the path |
| LockProgress.FreePathIsTaken | pkg/lockfile/lock.go:31-105 | from a sound state with no lock file, a caller anywhere on its way, alone, without failures and with no token of its process taken by another, holds the path with its own file after at most six steps |
| LockProgress.TokenIsReturned | pkg/lockfile/lock.go:161-177 | a caller that puts its token back leaves it in the channel with one reference less, and the registry forgets the lock exactly when it names this one and nobody else uses it |
| LockProgress.ReleaseFreesPath | pkg/lockfile/lock.go:62-76 | from any sound state a holder without failures removes the lock file exactly if it is its own, returns its token and drops its reference |
| LockProgress.GivingUpLeavesNothing | pkg/lockfile/lock.go:46-51 | a caller with the token that fails to make its file gives token and reference back and leaves the file as it was |
| LockProgress.UnusableFileIsRemoved | pkg/lockfile/lock.go:56-61 | a caller that cannot use the file it made removes it and gives everything back |
| LockProgress.TimedOutLeaves | pkg/lockfile/lock.go:153-159 | a caller that gets no token drops its reference and leaves everything else as it was |
| LockProgress.PathPassesOn | pkg/lockfile/lock.go:31-177 | acquire, release, acquire by any two callers succeeds from a sound state with no lock file and no token taken |
| LockProgress.AbandonedFileIsReplaced | pkg/lockfile/lock.go:107-120 | a caller that finds a dead process's file old replaces it with its own |
| LockProgress.OldFileIsCleared | pkg/lockfile/lock.go:90-96 | a blocked caller that finds the lock file old removes it and holds the path with its own |
| LockProgress.FailedRetirementLeaves | pkg/lockfile/lock.go:107-120 | a caller that cannot retire an old file leaves with everything as it was |
| LockProgress.WaitingChangesNothing | pkg/lockfile/lock.go:97-104 | one that finds it not old looks again and changes nothing |
| CodexConfig.EnsureFeatureFlags | pkg/hookinstall/codex_policy_state.go:64-112 | the features pass over the lines |
| CodexConfig.RemoveHookState | pkg/hookinstall/codex_policy_state.go:47-62 | the removing pass |
| CodexConfig.EnsureHookState | pkg/hookinstall/codex_policy_state.go:114-161 | the trusting pass |
| CodexConfig.UpdateHookConfig | pkg/hookinstall/codex_policy_state.go:33-45 | all passes in order, and a final line break |
| CodexConfigTheorems.SplitOfJoin | pkg/hookinstall/codex_policy_state.go:194-199 | splitting joined lines gives the lines back |
| CodexConfigTheorems.JoinOfLines | pkg/hookinstall/codex_policy_state.go:194-199 | joining split lines gives the text back |
| CodexConfigTheorems.EnsureIsNormal | pkg/hookinstall/codex_policy_state.go:64-161 | a pass reaches its normal form from any lines |
| CodexConfigTheorems.EnsureOfNormal | pkg/hookinstall/codex_policy_state.go:64-161 | and leaves lines in that form alone |
| CodexConfigTheorems.EnsureKeepsNormal | pkg/hookinstall/codex_policy_state.go:64-161 | a pass keeps the normal form of the others |
| CodexConfigTheorems.RemoveKeepsNormal | pkg/hookinstall/codex_policy_state.go:47-62 | removing a section keeps the normal form of other sections |
| CodexConfigTheorems.HeadersDiffer | pkg/hookinstall/codex_policy_state.go:190-192 | different events have different section headers |
| CodexConfigFixpoint.UpdateIsFixpoint | pkg/hookinstall/codex_policy_state.go:33-45 | rewriting twice is rewriting once, for every text |
| CodexConfigFixpoint.UpdateSections | pkg/hookinstall/codex_policy_state.go:33-45 | afterwards each features section assigns hooks exactly once and not the old flag, each of the four Gesta sections has one trusted hash and is not disabled, and no retired section is left |
| CodexConfigFixpoint.UpdateHasSections | pkg/hookinstall/codex_policy_state.go:33-45 | and those sections are there |
| CodexConfigFixpoint.MissingSectionIsAdded | pkg/hookinstall/codex_policy_state.go:105-112 | a missing section is added at the end, after a blank line unless there is one, and nothing else changes |
| CodexConfigFixpoint.UpdateEndsLine | pkg/hookinstall/codex_policy_state.go:33-45 | the rewritten text ends with a line break |
| CodexConfigFixpoint.UnescapeInverts | pkg/hookinstall/codex_policy_state.go:212-230 | quoting a name is undone by reading it as a TOML basic string, so different names get different headers |
| CodexConfigOutside.UpdateKeepsOtherLines | pkg/hookinstall/codex_policy_state.go:33-45 | all lines outside those sections survive in order; only blank lines may follow them |
| KeywordSearch.KeywordMatch | pkg/turn/classifier.go:58-81 | the skip-ahead loop terminates and computes the skipping search |
| KeywordSearch.SkipFindsIff | pkg/turn/classifier.go:66-81 | without a self-overlap that begins after a boundary, skipping finds a whole word exactly when there is one |
| KeywordSearch.SkippingIsExactIff | pkg/turn/classifier.go:66-81 | a one-word keyword is found correctly in every text if and only if it has no such overlap |
| KeywordSearch.WordsAreExact | pkg/turn/classifier.go:66-94 | keywords of lower case letters and digits are found exactly where they are whole words |
| KeywordSearch.JointKeywordsAreFoundAnywhere | pkg/turn/classifier.go:63-65 | a keyword with a space, one of "-_./" or a byte beyond ASCII, such as "pull request", is found wherever it occurs |
| KeywordSearch.SkippingCanMiss | pkg/turn/classifier.go:66-81 | a keyword and a text on which skipping misses a whole word |
| KeywordSearch.ContainsBoundedKeyword | pkg/contextmatch/matcher.go:127-163 | stepping by one is exact for every non-empty keyword, and terminates |

## Left out

- 64-bit wrap-around of sequences, counters and token totals, and JSON encoding failures: numbers are unbounded and encoding always succeeds.
- bbolt, file locks, SHA-256, HTTP and the file system's own guarantees: maps, injective names and arbitrary outcomes stand for them.
- Clocks, `send` and server answers are parameters; the deadline of the upgrade retry loop and of lock waits is an arbitrary number of attempts or an arbitrary choice to give up.
- Backfill of databases from before the id index (`pkg/eventqueue/queue_index.go:9-33`): such a database may hold duplicate ids, so the claims start from an empty one.
- Order among delivered ids with equal times is left to the byte order of keys; no modelled operation depends on it.
- Usage totals only: input, output and cache tiers, delta windows, the guard that seeds cache counters and payload metadata are not part of the usage model; totals are natural numbers.
- The Codex usage baseline (`pkg/daemon/session_baseline.go:105-159`), the transcript and MCP baselines and legacy cursor migration are not part of this model.
- ForkUsage.QueuedIsDistinctIff: cycles are uncut, sessions only grow, and every bucket is reported in every collection that charges it.
- A delta dated to an old usage day may be refused by the queue as too old; the usage model ends at the append.
- Fork accounting cutover, active-session flags and the marking of inherited turns and MCP calls; session hashes are numbers in the order of their text.
- Codex session selection, identity migration and path hashes (`pkg/turn/codex.go:17-133`); titles, repositories and providers; scoring and classifying text stay uninterpreted functions.
- The order in which Claude sessions are visited, and which of two equal turns (same id and end) an unstable sort visits first; the model's sort keeps their order.
- Message normalization and chunk payloads: messages come with their version, encoded text and local date.
- A transcript's content, titles and MCP calls: records come with their trimmed texts and with whether they start or continue a turn.
- A waiting caller of the lock may give up even when the token is free, and directory creation is not modelled; one path is modelled, since paths share nothing.
- The hash of a Codex hook and reading or writing the configuration file; keywords are taken as already trimmed and lower-cased.
- Upgrade download and verification, hook installation paths, policy rules, privacy filters and activity views: they fetch, copy, look up or format, and keep no state that the parts above rely on.
- QueueRuns.AcknowledgedAtMostOnce: needs the id not to be queued again between read and acknowledgement, which the code does not ensure for snapshots; `AtMostOnceIff` shows that nothing less will do.
- QueueStore.Queue.MoveRejected: the quarantine record's reason and time are left out.
- UsageAgent.AddBaselineSession: token tiers, transcript fields and timestamps of the record are left out.
- UsageAgent.UsageDeltaFromEvent: the total tier alone, without cache seeding and windows.
- ForkAccounting.MergeInvocations: the final sort by time and id is left out; no modelled sum depends on it.
- ForkAccounting.PrepareForkAccounting: the cutover date, active sessions and inherited turn marks are left out.
- ClaudeTurns.CollectClaude: sessions come in a given order; the sort by hash before the loop is left out.
