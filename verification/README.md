# Verified model of the Tetragon to Kafka adapter

The adapter moves Tetragon events to Kafka: a gRPC reader fills `grpcEventCh`, `processEvents` samples and pushes into a
bounded queue, `writeToKafka` turns each event into a keyed record and offers it to the writer, and a pool of workers
batches records into the producer's `Input`. The hard part is what holds over every interleaving of these goroutines.

| file | models |
|---|---|
| `Pipeline.dfy` | the whole adapter as one transition system: reader, processor, feeder, pool and main are program counters with the event in hand; a `select` is a choice among its ready cases, `default` only when none is |
| `PipelineProofs.dfy`, `Adapter.dfy` | invariants of every run; order, conservation, counters, residency, drop count, the reader as receive loops |
| `Shutdown.dfy` | the shutdown sequence: when closing can panic, that everything ends, what is lost, exactly |
| `Worker.dfy` | one batching worker, each `select` an action; a flush and the whole loop are shown to be compositions of these actions |
| `Pool.dfy` | `messageCh` and any number of workers; conservation, order, draining, termination |
| `Writer.dfy` | the `Writer` object, its reused slice, `flushBatch`, `writeToDLQ` and `worker` as methods, proved against `Worker.dfy` |
| `EventQueue.dfy` | the queue in both back-pressure modes, its drop count, the sampler |
| `Reconnect.dfy`, `Backoff.dfy`, `Config.dfy` | the receive loop of a stream and the reconnect loop with real client objects, the int64 backoff, the checks of `Validate` |
| `Events.dfy`, `DedupKey.dfy` | events, routing, the deduplication key |
| `Compaction.dfy`, `Replicas.dfy` | log compaction and the convergence of replicas |
| `TraceSampling.dfy` | the trace-id hash |
| `Seqs.dfy`, `Wrappers.dfy` | subsequences, Option and Result |

The environment is a parameter everywhere: which ready case a `select` takes, how a stream ends, whether dialling
succeeds, when a deadline expires, trace ids, random draws. Marshalling is a function of the event, SHA-256 any function
to 64 hexadecimal characters; where keys are hashed the absence of a collision between the two keys at hand is a stated
hypothesis. Strings are sequences of bytes.

## Findings

Where the code falls short of what its comments or documents promise, the model follows the code, a concrete run shows
the difference, and the exact condition is proved.

- README.md:13 promises that graceful shutdown loses no data. Main cancels the context that the workers share before it
  closes the writer, and a worker that sees the cancellation returns without draining the channel. Exact condition, in
  the state in which the signal arrives: no shutdown loses anything accepted by `Write`, before or after the signal, if
  and only if the channel and all batches are empty and writeToKafka can no longer come to a `Write`
  (`Shutdown.GracefulShutdownIff`); at any later time `Shutdown.CancelledKeepsAllIff`. For every configuration with Kafka
  up that samples at all some run loses a message counted as written (`Shutdown.ShutdownCanLose`). Closing alone is
  harmless when the context is live and no flush deadline expires (`Pool.CloseLosesNothingIff`, `Pool.DrainsCompletely`).
  The books of a finished shutdown are `Shutdown.QuiescentAccounting`.
- The comment at internal/kafka/writer.go:71 says a `Write` after `Close` takes the `default` case. A send on a closed
  channel panics in Go, inside a `select` too; cmd/consumer/main.go:303-309 recovers, so the process goes on, writeToKafka
  is gone and so is its event. Main's two looks at the queue size do not prevent it: it can happen exactly when, at
  `Close`, writeToKafka can still come to a `Write` (`Shutdown.PanicsAfterCloseIff`, `Shutdown.EmptyQueueIsNoGuard`,
  `Shutdown.SomeShutdownPanics`). Waiting for writeToKafka does prevent it (`Shutdown.GuardedCloseIsSafe`).
- A cancelled flush dead-letters from `len(sentMessages)`, a count of distinct ids that already includes the message in
  hand. With distinct ids that message is lost (`Worker.DistinctCutMissesOne`); every message is handled exactly once if
  and only if exactly one id was repeated (`Worker.PartitionIffOneDuplicate`). With more than one repetition messages are
  dead-lettered that were already sent, and only then is Input out of order (`Worker.InputOrderIffAtMostOneRepeat`,
  `Worker.RunOrder`, `Worker.ThreeAlike`).
- `writeToDLQ` retries only after an error that means the context is done, and the wait before the retry is interrupted by
  the same context: unless the select picks a wait's expired 100 ms timer against the context that is done already, the
  retries and the failure counter are dead (`Worker.RetriesAreDead`, `Worker.ExhaustedIff`). The 400 ms wait of the comment never happens at all.
- `GetReconnectBackoff` doubles before it clamps, so the register overflows: right for every accepted configuration up to
  attempt 21, negative at the first overflow, zero from attempt 55 on. `attempt` is never reset, so a long-lived process
  gets there.
- `ReadEvents` never returns nil, so the branch for a clean close in `RunWithReconnect` is dead
  (`Reconnect.Client.ReadEvents`, `Reconnect.LimitEndsTheLoop`).
- The dedup key identifies node, type and the list of numbers present. Skipping empty fields makes a pid without a
  timestamp collide with that timestamp without a pid, and two events of one process in one nanosecond share a key.
- `GenerateDedupKey` is called whatever `partition_key.mode` says; the mode therefore has no place in the model.
- The trace hash is normalised by 2^31 - 1, not 2^31, so it can be 1 (`TraceSampling.NormalisedIsOneIff`).

## Model

| member | source | states |
|---|---|---|
| Adapter.ReceiveOrderEndToEnd | cmd/consumer/main.go:519-794 | in every reachable state, accepted ++ hands ++ queue ++ grpcEventCh is a subsequence of the events received; so is everything each worker handed to Input, dead letters included, unless that worker sent something twice, and with one worker the whole Input stream; nothing is sent twice if no id is accepted twice |
| Adapter.NothingVanishes | internal/kafka/writer.go:63-154 | in every reachable state each received event is in exactly one of fifteen places, and each accepted message in exactly one place of the pool, dead-lettered duplicates apart |
| Adapter.CountersAccount | internal/grpc/stream.go:74-96 | the exported counters account for every event up to one in each goroutine's hand; before cancellation nothing is lost outside them on the way to the writer, and the reader loses at most one event to it |
| Adapter.QueueFullIsExcess | internal/queue/queue.go:64-83 | over every run in drop mode, drops_total{queue_full} is exactly the largest overshoot of pushes over pops plus capacity, so no event that fitted was dropped |
| Adapter.SampledExactly | cmd/consumer/main.go:532-541 | in every run the sampled and the skipped events are counted by the draws below and not below the ratio, and the events that reach Push are, in the order taken from grpcEventCh, exactly those whose draw is below it |
| Adapter.AlwaysLawful | cmd/consumer/main.go:595-607 | processEvents and writeToKafka return only under a done context or by the panic; with Kafka up nothing is skipped, without it nothing is offered to the writer |
| Adapter.NextMoveIsReady | cmd/consumer/main.go:527-597 | in every run each case of a select is taken only when it is ready, and a default only when no other case is |
| Adapter.SelectsProceed | internal/grpc/stream.go:57-96 | and every ready case can be taken |
| Adapter.AcceptedTraceIds | cmd/consumer/main.go:641-749 | in every run the accepted messages carry the trace ids given to their events, in order |
| Adapter.DifferentTraceIdsKeepOrder | internal/schema/v1/schema.go:83-91 | as long as the trace ids given out are different, every worker hands everything to Input, dead letters included, in the order received, and nothing twice |
| Adapter.ResidencyBound | cmd/consumer/main.go:268 | the events held in channels, batches and hands never exceed 2*MaxQueue + 2*MaxMessages*Workers + 3 |
| Adapter.ResidencyOfValidated | internal/config/validator.go:62-88 | any configuration Validate accepts keeps the process below 202,000,003 resident events |
| Shutdown.PanicsAfterCloseIff | cmd/consumer/main.go:410-416 | closing the writer can lead to a send on the closed channel if and only if, in the state before, writeToKafka can still come to a Write: it holds an event, or one is queued or can still reach the queue |
| Shutdown.GuardedCloseIsSafe | cmd/consumer/main.go:410-416 | no run in which Close waits for writeToKafka to return ever panics |
| Shutdown.EmptyQueueIsNoGuard | cmd/consumer/main.go:389-396 | from every state that drains with an empty queue main may see it empty twice and close, and the panic is then possible exactly when writeToKafka can still come to a Write |
| Shutdown.SomeShutdownPanics | cmd/consumer/main.go:368-416 | for every configuration with Kafka up that samples at all there is a run that panics during shutdown and loses its event |
| Shutdown.ShutdownCanLose | README.md:13 | for every such configuration there is a run in which all goroutines return while a message counted as written is still in the channel and nothing reached Input |
| Shutdown.GracefulShutdownIff | cmd/consumer/main.go:354-434 | for every state in which the signal arrives: every shutdown, up to the return of all goroutines or of all workers, submits everything accepted before or after, if and only if the channel and all batches are empty and writeToKafka can no longer come to a Write; some shutdown always ends |
| Shutdown.CancelledKeepsAllIff | cmd/consumer/main.go:363-366 | the same for every state after cancellation, before and after Close |
| Shutdown.ShutdownLosesNothingIff | cmd/consumer/main.go:410-434 | the part after Close: every continuation in which all workers return hands what the channel and the batches held at Close to Input if and only if they held nothing |
| Shutdown.EveryMoveWorks | cmd/consumer/main.go:363-434 | after cancellation every move of every goroutine lowers one measure of the whole adapter, except idle ticks, which change nothing |
| Shutdown.BusyIsBounded | cmd/consumer/main.go:363-434 | so no schedule of such moves is longer than the measure |
| Shutdown.NeverStuck | cmd/consumer/main.go:363-434 | and as long as some goroutine lives such a move is ready, one that needs nothing from Input |
| Shutdown.SomeFinish | cmd/consumer/main.go:363-434 | from every state after cancellation all goroutines can return, even if Input takes nothing more |
| Shutdown.QuiescentAccounting | internal/kafka/writer.go:96-107 | once all goroutines have returned, by a recovered panic or not, the exact difference between received, accepted and submitted, counted and silent losses apart |
| Adapter.TurnIsReader | internal/grpc/stream.go:55-97 | a turn of the receive loop consists of the moves of the transition system's reader, with the same outcome |
| Adapter.ReaderIsReceiveLoop | internal/grpc/stream.go:33-98 | in every run the reader is a sequence of receive loops, each but the current ended by its last turn and not before, with the same delivered, dropped and given-up events |
| Adapter.EndedEnds | internal/grpc/stream.go:33-98 | such a stream, given to ReadEvents, makes it return, and at its last turn |
| Shutdown.WaitForDrain | cmd/consumer/main.go:383-408 | the drain loop stops at the first poll that times out or sees the queue empty twice, and at no earlier one |
| Shutdown.PollIsMain | cmd/consumer/main.go:383-408 | each turn of that loop is main's part of the transition system, and ends the loop exactly when it closes the writer |
| PipelineProofs.MoveSound | cmd/consumer/main.go:527-580 | every step of every goroutine keeps order, conservation, ledger, bounds and the provenance of messages |
| PipelineProofs.RunSound | cmd/consumer/main.go:592-794 | the same for every reachable state |
| Pool.PoolStepInv | internal/kafka/writer.go:94-153 | every step of every worker, and every Write, Close and Cancel, keeps the pool's accounts, orders and batch bounds, and workers leave only for a reason |
| Pool.Conservation | internal/kafka/writer.go:63-154 | for any number of workers, each accepted message occurs exactly once among channel, batches, Input and the three ways to be lost |
| Pool.HeldOnce | internal/kafka/writer.go:109-127 | a message accepted once and held by a worker is in no other worker's hands and not in the channel, nor already submitted unless as a dead-lettered duplicate |
| Pool.SendOrder | internal/kafka/writer.go:174-231 | what a worker sent to the messages' own topics is in acceptance order, and so is everything it handed to Input followed by what it holds, as long as it sent nothing twice |
| Pool.DistinctIdsNeverResend | internal/kafka/writer.go:205-230 | if no id is accepted twice no worker ever sends a message twice, whatever is cancelled |
| Pool.DrainsCompletely | internal/kafka/writer.go:109-125 | if nothing is cancelled or timed out and all workers have returned, the channel is closed and empty and Input got exactly the accepted multiset, in order with one worker |
| Pool.CloseLosesNothingIff | internal/kafka/writer.go:94-231 | for every closed pool: all schedules up to the return of the last worker submit exactly the channel and the batches if and only if there is nothing in them, or, when no flush deadline expires, the context is live and no worker is dead-lettering |
| Pool.EveryStepCounts | internal/kafka/writer.go:94-231 | every worker step, cancelled sends and dead-letter writes included, lowers a measure of channel and workers, except a tick on an empty batch, which changes nothing |
| Pool.ProgressIsBounded | internal/kafka/writer.go:329-342 | no schedule of steps that count is longer than that measure |
| Pool.NeverStuckAfterClose | internal/kafka/writer.go:94-231 | after Close, as long as a worker lives, a step that counts is ready if Input accepts, and one that does not need Input is ready too, for a blocked send its cancellation or deadline |
| Worker.StepInv | internal/kafka/writer.go:94-231 | one step of a worker keeps its ledger and both orders, and until a send is cancelled nothing is lost, repeated or dead-lettered |
| Worker.FlushIsSmallSteps | internal/kafka/writer.go:157-232 | a whole flush equals the composition of its individual sends, the cancelled send and the dead-letter writes, each enabled in turn |
| Worker.LoopIsSmallSteps | internal/kafka/writer.go:94-153 | every run of the worker loop is a run of the small steps and keeps the invariant |
| Worker.ReceiveFlushesFullBatch | internal/kafka/writer.go:127-134 | a message from the channel starts a flush exactly when it is the MaxMessages-th of the batch, and waits otherwise |
| Worker.OthersFlushAnything | internal/kafka/writer.go:96-147 | a tick flushes whatever there is; a closed channel and a done context do too and end the worker |
| Worker.BatchesAreFull | internal/kafka/writer.go:127-134 | after any number of messages, no flush cancelled, the worker holds the last count % MaxMessages of them and has sent all before |
| Worker.UncutRun | internal/kafka/writer.go:94-153 | without cancellation what was sent and then what is held is what was taken, whatever ticks come between |
| Worker.TickSendsAll | internal/kafka/writer.go:136-147 | an uncancelled flush at a tick, a closed channel or a done context leaves nothing unsent |
| Worker.LeavesIff | internal/kafka/writer.go:96-125 | the loop ends exactly at a closed channel or a done context, and until then takes every message offered |
| Worker.CutFlushEffect | internal/kafka/writer.go:171-231 | all a flush cancelled at message i does: Input gets exactly batch[..i] and then the dead letters written from index i + 1 - repeats on; what is missed and what is sent twice |
| Worker.DistinctCutMissesOne | internal/kafka/writer.go:213-230 | the message in hand is lost if and only if the ids up to it are distinct, and then Input got exactly batch[..i] and dead letters of batch[i+1..] |
| Worker.PartitionIffOneDuplicate | internal/kafka/writer.go:213-230 | a cancelled flush hands every message of its batch exactly once to Input or to writeToDLQ if and only if exactly one id is repeated up to the cancelled send |
| Worker.InputOrderIffAtMostOneRepeat | internal/kafka/writer.go:213-230 | what a cancelled flush hands to Input is in batch order, whatever becomes of the dead letters, if and only if at most one id is repeated up to the cancelled send |
| Worker.ThreeAlike | internal/kafka/writer.go:213-230 | three messages with one id, the third send cancelled: Input gets the second twice, out of order |
| Worker.DistinctTraceIdsMissOne | internal/kafka/writer.go:209-230 | on the fields: with different non-empty trace ids up to the cancelled send, Input gets batch[..i] and dead letters of batch[i+1..], and batch[i] is lost |
| Worker.SameIdOnFields | internal/kafka/writer.go:209-213 | when two messages count as one: trace ids decide; without any, topic and key do |
| Worker.ThreeOfOne | internal/kafka/writer.go:209-230 | three messages with one trace id, or without any and of one topic and key: the second reaches Input twice |
| Worker.DeadLetterWrittenIff | internal/kafka/writer.go:224-230 | when a dead letter of a cancelled flush, whose context is done, is written |
| Worker.ResentIff | internal/kafka/writer.go:94-231 | over any run of the loop, something is dead-lettered after it was sent if and only if some flush is cancelled after more than one repeated id |
| Worker.RunOrder | internal/kafka/writer.go:94-231 | without such a flush everything a run hands to Input is in the order received; each such flush breaks the order if its dead letters are written |
| Worker.IntendedSliceConserves | internal/kafka/writer.go:226-230 | dead-lettering batch[i..] instead would conserve every message, with nothing missed and nothing sent twice |
| Worker.ExhaustedIff | internal/kafka/writer.go:271-327 | a dead-letter write is counted as failed exactly when the context is done from the start, Input takes no attempt and both waits end with their timers; exactly when it succeeds |
| Worker.RetriesAreDead | internal/kafka/writer.go:278-290 | a send fails only under a context that stays done, so there is a second attempt exactly if the first wait's timer is picked against it; otherwise the first attempt decides and no failure is counted |
| Writer.Slice.Append | internal/kafka/writer.go:127 | append keeps the backing array while there is room and moves to a new one when there is none |
| Writer.Writer.Write | internal/kafka/writer.go:63-72 | accepts below capacity, counts a drop at capacity, panics when closed; agrees with the pool's step |
| Writer.Writer.Close | internal/kafka/writer.go:337-342 | however often it is called, the channel is closed exactly once, so the second close that would panic never happens, and what is queued stays; agrees with the pool's step |
| Writer.Writer.WriteToDlq | internal/kafka/writer.go:271-327 | at most one record reaches Input; the waits are a prefix of 100, 200 ms, one fewer than the attempts; both counters |
| Writer.Writer.FlushBatch | internal/kafka/writer.go:157-232 | adds to Input exactly the sends before the cut and the dead-letter records from the first undelivered index on, and counts the failures |
| Writer.Writer.Turn | internal/kafka/writer.go:95-152 | one turn equals the machine's turn, keeps the slice below MaxMessages and never replaces its array; the shrinking branch is dead |
| Writer.Writer.RunWorker | internal/kafka/writer.go:76-154 | over any sequence of select outcomes Input, the unflushed batch, the exit and the failure counter are those of the machine, with one array allocation |
| EventQueue.Queue.Push | internal/queue/queue.go:64-83 | drop mode drops and counts exactly when full; block mode never drops, waits while full and gives up only on a cancelled context |
| EventQueue.Queue.Pop | internal/queue/queue.go:86-93 | returns the oldest event and removes it, or leaves the queue alone |
| EventQueue.Queue.Size | internal/queue/queue.go:106-108 | the number of queued events, never above the capacity |
| EventQueue.DropsAreExcess | internal/queue/queue.go:64-93 | from any initial length, drops and final length are those of a walk reflected at the capacity |
| EventQueue.ExcessIsMax | internal/queue/queue.go:64-73 | the excess is the maximum over all prefixes of pushes minus pops over the room left, floored at zero, and is attained |
| EventQueue.Sampler.ShouldSample | internal/queue/sampler.go:30-47 | with or without the separate test for a ratio of 1, selects exactly the draws in [0, ratio) and counts the selected |
| EventQueue.SampledShare | internal/queue/sampler.go:30-47 | the ratio is the share selected: of n evenly spread draws exactly ratio * n, rounded up |
| Reconnect.Client.ReadEvents | internal/grpc/stream.go:33-98 | every way out of the receive loop carries an error; what is delivered and dropped is that of the turns played, and received = delivered + dropped + at most one given up |
| Reconnect.ReconnectManager.ReplaceClient | internal/grpc/reconnect.go:106-125 | keeps at most one connection open; the manager holds a client if and only if dialling succeeded |
| Reconnect.ReconnectManager.RunWithReconnect | internal/grpc/reconnect.go:33-142 | never reads from a missing or closed client, ends at the first round that stops, reconnects exactly MaxAttempts times before giving up, total sleep and number of reads, whether a client is left at each exit; received = delivered + dropped + given up over all streams |
| Reconnect.LimitEndsTheLoop | internal/grpc/reconnect.go:75-81 | a positive limit m ends the loop within m+1 rounds whatever the server does, unless a stream never ends; no limit means only the context ends it; a clean close is never recognised |
| Reconnect.ExitReasons | internal/grpc/reconnect.go:40-142 | no round before the last saw a done context or the limit; the exit is Cancelled, GaveUp or inside a stream exactly as the looks at the context, the limit and the stream of the last round say, in their order |
| Reconnect.ReadsPerRound | internal/grpc/reconnect.go:48-65 | at most m+1 ReadEvents calls, and exactly m+1 on giving up when every dialling succeeded, however long the streams lived |
| Reconnect.SleptIsWanted | internal/grpc/reconnect.go:83-140 | within the safe range the time slept is the designed sum plus exactly the jitter drawn, less than one second per round |
| Reconnect.OverflowSleeps | internal/grpc/reconnect.go:83-140 | beyond it: no sleep at all at the first overflow, and only the jitter from attempt 55 on |
| Reconnect.TwentyTwoRoundsFit | internal/config/validator.go:126-140 | every accepted configuration is in the safe range for up to 22 rounds |
| Reconnect.WantedTotalClosedForm | internal/config/config.go:265-274 | the designed sum is initial*(2^p - 1) + (m - p)*max seconds, p the number of rounds below the cap |
| Backoff.GetReconnectBackoff | internal/config/config.go:265-274 | the doubling int64 register equals the wrapped product at every step of the loop |
| Backoff.CorrectUpToIffFits | internal/config/config.go:265-274 | for one configuration, all attempts up to n get min(initial*2^k, max) seconds if and only if initial*10^9*2^n is below 2^63 |
| Backoff.CorrectForAllConfigsIff21 | internal/config/config.go:266-273 | an attempt is right for every accepted configuration if and only if it is at most 21 |
| Backoff.FirstOverflowIsNegative | internal/config/config.go:267-269 | the first attempt that overflows waits a negative time |
| Backoff.ZeroFrom55 | internal/config/config.go:267-269 | from attempt 55 on every accepted configuration waits zero |
| Backoff.SafeBackoffShape | internal/config/config.go:270-273 | without overflow the backoff never decreases and stays between initial and max |
| Config.Validate | internal/config/validator.go:61-140 | accepts exactly the configurations whose sizes, ratio, ports and backoffs are in range, with some topic and known modes and formats |
| Config.ReportsFirstFailure | internal/config/validator.go:61-140 | which error is reported: the first in the order of the checks |
| DedupKey.GenerateDedupKey | internal/kafka/partition_key.go:17-45 | the builder loop yields the non-empty field values joined by the separator, shortened by the digest above 100 bytes |
| DedupKey.DefaultKey | internal/config/config.go:217-221 | with the default fields the key is node:type followed by the numbers present |
| DedupKey.ParseFromRight | internal/kafka/partition_key.go:22-33 | read from the right, an unhashed key determines node, type and numbers even if the node name contains colons |
| DedupKey.RawKeyKernel | internal/kafka/partition_key.go:22-35 | two unhashed default keys are equal if and only if node, type and list of present numbers are |
| DedupKey.ColonMarksUnhashed | internal/kafka/partition_key.go:37-42 | a key has no colon exactly when it is hashed |
| DedupKey.KeyKernel | internal/kafka/partition_key.go:17-45 | the same for keys of every length, absent a digest collision between the two |
| DedupKey.KeyIdentifies | internal/kafka/partition_key.go:64-67 | with pid and timestamp present, keys are equal if and only if the node names (none counting as "unknown"), the kinds of event, pids and timestamps are |
| DedupKey.KeyOnFields | internal/kafka/partition_key.go:17-45 | for any two events, on their fields: equal keys if and only if same node, same kind and same numbers, or one has only a pid and the other only the same number as time |
| DedupKey.ProcessKeys | internal/kafka/partition_key.go:48-114 | the key of each kind of process event literally, node ":" type ":" pid ":" time, and 32 characters of its digest above 100 bytes |
| DedupKey.OtherKeys | internal/kafka/partition_key.go:48-114 | the same for events without a process |
| DedupKey.DecIsDecimal | internal/kafka/partition_key.go:64-67 | the numbers in keys are in decimal notation, without leading zeros |
| DedupKey.FieldValues | internal/kafka/partition_key.go:74-114 | what each configurable process and k8s field stands for |
| DedupKey.NoFieldValues | internal/kafka/partition_key.go:74-155 | and when such a field is empty |
| DedupKey.KeyFixesTopic | internal/router/router.go:23-41 | one key never spans two topics, even with pid or timestamp missing |
| Events.RouteByKind | internal/router/router.go:23-49 | an event goes to the topic of its own kind if there is one, else to that for unknown events, else to a constant; the same for dead letters |
| Events.TypeIsKind | internal/router/detect.go:8-28 | type names tell the kinds of events apart |
| DedupKey.SkippedFieldCollision | internal/kafka/partition_key.go:26-32 | a pid without timestamp and the same number as timestamp without pid give one key to two different events |
| Compaction.CleanPreserves | doc/tetragon_grpc_kafka_consumer_professional.md:820-823 | removing superseded records in any order never changes what a reader ends up with |
| Compaction.CleanedLogIsTheMap | doc/tetragon_grpc_kafka_consumer_professional.md:820-823 | a fully cleaned log holds exactly one record per key, the last one |
| Compaction.ConvergesIffConsistent | doc/tetragon_grpc_kafka_consumer_professional.md:820-823 | the outcome is independent of order, repetition and interleaving if and only if equal keys carry equal values |
| Compaction.OneRecordPerDelivery | doc/tetragon_grpc_kafka_consumer_professional.md:820-823 | with injective keys exactly one record per delivered event remains, with its value |
| Compaction.ReplicasConverge | doc/tetragon_grpc_kafka_consumer_professional.md:805-823 | any two deployments that deliver the same events at least once leave the same topic |
| Replicas.RecordsAreEventDetermined | cmd/consumer/main.go:733-749 | in every run, topic, key and value of every record handed to Input depend on the event alone |
| Replicas.RecordFields | cmd/consumer/main.go:733-749 | in every run each record carries the marshalled event under the event's key, to the topic of its kind or to the dead-letter topic |
| Replicas.ReplicasAgree | doc/tetragon_grpc_kafka_consumer_professional.md:805-823 | runs of the whole adapter, any number of replicas and any interleaving, that delivered the same events leave the same compacted topics |
| Replicas.DefaultKeysConvergeIff | internal/kafka/partition_key.go:14-16 | with the default keys the design works on a set of events if and only if events with the same node, type, pid and timestamp marshal alike |
| Replicas.OneRecordPerEvent | doc/tetragon_grpc_kafka_consumer_professional.md:820-823 | for any runs of any number of replicas, if that identity identifies, the topics end with exactly one record per event and topic it was handed to at least once, dead letters included |
| Replicas.TwoEventsOneRecord | internal/kafka/partition_key.go:64-67 | two different events of one process in one nanosecond leave one record |
| TraceSampling.ShouldLogDataTransform | cmd/consumer/main.go:501-516 | the wrapping 64-bit loop decides by the base-31 polynomial of the trace id modulo 2^31 |
| TraceSampling.WidthIndependent | cmd/consumer/main.go:509-514 | the masked hash is the same on every machine whose int has at least 31 bits |
| TraceSampling.SelectionThreshold | cmd/consumer/main.go:502-515 | exactly the residues below ratio*(2^31 - 1) are selected, none at ratio 0 and all at ratio 1, and a larger ratio never deselects |
| TraceSampling.NormalisedIsOneIff | cmd/consumer/main.go:512-515 | the normalised hash, meant to lie below 1, reaches 1 exactly for the residue 2^31 - 1, which no ratio below 1 selects |
| TraceSampling.NormalisedCanBeOne | internal/schema/v1/schema.go:83-91 | some 32-digit hexadecimal trace id has that residue |

## Left out

- sarama, gRPC, TLS, protobuf, SHA-256 internals: Input may accept or block, streams and dialling are nondeterministic, marshalling and digest are functions.
- Record headers and record timestamps set in flushBatch and SendMessage: they affect neither key, value nor order.
- Producer success and error goroutines: metrics over a foreign client; what Input accepted is where the model ends.
- Worker.Step: the 30 s deadline of a flush may expire at any time, it is not tied to a clock.
- Pipeline.MoveStep: the reader abstracts RunWithReconnect to connecting, failing and stopping; Reconnect.dfy has the loops themselves, tied to it by Adapter.TurnIsReader and Adapter.ReaderIsReceiveLoop; failed openings of a stream are not moves.
- Writer.Writer.RunWorker: runs one worker against the outcomes of its selects; sharing the channel with other workers is modelled on values in Pool.dfy.
- TraceSampling.ShouldLogDataTransform: the ratio comparison is over real numbers; float64 rounding of the quotient is not modelled.
- Shutdown.WaitForDrain: the queue size kept for logging has no specified effect, and the 30 s timeout is one of the polls.
- Config.Validate: the checks before line 61, that is addresses, client id, acks and compression, and the format of the gRPC address at the end are not modelled.
- Event times outside the int64 nanosecond range, normalisation internals, log throttling, latency histograms, health and metrics servers, topic administration, logging to Kafka.
- The stop of the process 10 s after Close with workers still running: such a run is a prefix of a modelled one.
