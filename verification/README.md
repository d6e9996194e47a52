# Redis Streams sidecar: a verified model

The sidecar ("sugar glider") sits between applications and Redis Streams. Publishers send
events to it and are answered with an entry ID or, when Redis is unreachable, with "queued in
the write-ahead log". Consumers subscribe to a consumer group, receive events through bounded
channels and acknowledge them in batches. Messages that are delivered too often are moved to a
dead-letter stream, from which an operator can replay them.

This project models the parts of it whose correctness depends on interleavings or on state kept
across calls, and proves what they promise.

| file | part of the sidecar |
|---|---|
| `Dispatcher.dfy`, `DispatcherRuns.dfy`, `DispatcherExact.dfy` | fan-out to subscriber channels, backpressure gate, drop streaks, eviction |
| `Lifecycle.dfy` | the manager's map of dispatchers, channels being closed, stop and shutdown |
| `AckLoop.dfy`, `AckRuns.dfy`, `AckExact.dfy`, `AckSpans.dfy`, `Sorting.dfy` | the batching ack loop, its flushes and its span counting |
| `Pipeline.dfy`, `PipelineRuns.dfy`, `PipelineExact.dfy`, `PipelineOrder.dfy`, `PipelineWorker.dfy` | the publish pipeline |
| `AdaptiveRouting.dfy` | bypassing the pipeline under low load |
| `Wal.dfy`, `WalLog.dfy`, `WalRuns.dfy`, `WalExact.dfy` | the write-ahead log |
| `Sidecar.dfy`, `SidecarRuns.dfy`, `SidecarSlots.dfy`, `SidecarAnswers.dfy`, `BatchRepublished.dfy` | the publish side end to end |
| `Dlq.dfy`, `DlqScan.dfy`, `DlqReplay.dfy`, `DlqLinks.dfy` | dead-letter moves, the scanner and replays |
| `NoVanish.dfy`, `NoVanishRuns.dfy`, `NoVanishExact.dfy`, `DispatcherKeys.dfy`, `AckRouting.dfy` | the consume side end to end, with the ack loops inside, and which dispatcher an acknowledgement reaches |
| `Common.dfy`, `Positions.dfy` | strings, and which elements of a list a filter keeps |

How concurrency is modelled: a machine is a total function `Apply(state, step)`, in which a step
that is not enabled changes nothing, and a run is any sequence of steps. A step is one atomic
action of one goroutine: a critical section, a channel operation, or a Redis command (for the
ack loop, one pipeline of XACKs). A select
with several ready cases is a choice carried by the step. Theorems quantify over all step
sequences, so over all interleavings and all failures. Code that works by updating variables in
loops is a class or a method with that state, proved against the functions the machines use.

Redis is an append-only log with increasing IDs, plus a pending list per group. Any command may
take effect and answer, take effect with its answer lost, or not take effect; the XADDs of one
pipeline are separate steps, so other clients' commands fall between them.

The machines are composed, not only placed side by side: `Sidecar` runs the pipeline's machine
and the log's replay inside its calls, and `NoVanish` runs one ack loop of `AckRuns` per
dispatcher, so that what reaches a pending list is what the loop's own XACKs name.

The `*Exact` and `SidecarAnswers` modules say what single operations and steps do in terms of
their inputs (positions, counts, who is told what), apart from the functions that compute it.

Where the code and a natural reading of its purpose differ, the model follows the code:

- The default subscriber buffer (256) and read count (100) are outside both sizing bounds (27
  for never dropping, 34 for never evicting), so with the defaults a slow consumer can lose
  events and be evicted (`DispatcherRuns.DefaultsCanEvict`).
- A replay without override does not always undo a move. A message that arrives with its own
  `dlq_original_stream` keeps it, because the message's fields are copied last, and is sent to
  the stream it names (`DlqReplay.NamedStreamOverrides`); and a message of a stream that is
  consumed but not among the publish streams is skipped by every replay
  (`DlqReplay.ConsumeOnlyStreamIsSkipped`). `DlqReplay.ReplayUndoesMove` and
  `DlqReplay.AllCyclesReturn` give the exact condition.
- For a batch of several requests, "queued" can be said of a request whose job had already come
  back with an ID: when the first result is an error all results are dropped and every event is
  published again (`BatchRepublished.QueuedThoughPublished`). `SidecarAnswers.QueuedMeansNoSuccess`
  says where that cannot happen.
- Dispatchers are found by stream and group joined with '|', so an acknowledgement for group "c"
  of stream "a|b" is XACKed on group "b|c" of stream "a" when only that dispatcher runs.
  `AckRouting.AcksNeverStray` says exactly for which consume streams this cannot happen.
- A pipeline of XACKs in which single commands fail without Exec reporting an error would have
  its unfinished IDs counted again in the compression metric. `AckRuns.Accounting` states the
  equation with that term; it is zero when command errors surface through Exec.

## Model

| member | source | states |
|---|---|---|
| `DispatcherRuns.SizingExact` | internal/service/dispatcher.go:313-377 | with buffer B, threshold T and read count R: no run of the dispatcher ever drops an event if and only if R ≤ B−T+1, and no run ever evicts a subscriber if and only if R ≤ B−T+8, for any consumer speed |
| `DispatcherRuns.NeverDrops` | internal/service/dispatcher.go:476-533 | the "fits" half: in every run every event offered to every subscriber, past or present, was accepted |
| `DispatcherRuns.NeverEvicts` | internal/service/dispatcher.go:476-533 | the "fits" half for eviction: no run evicts anyone |
| `DispatcherRuns.FloodLoses` | internal/service/dispatcher.go:492-533 | the other half: a consumer that never reads makes any larger read count drop, or evict |
| `DispatcherRuns.DefaultsCanEvict` | internal/config/config.go:72-74 | the default configuration is outside both bounds |
| `DispatcherRuns.FirstOfferFits` | internal/service/dispatcher.go:313-377 | in every run, the first event after the gate is accepted by every registered subscriber and resets its streak, so streaks never span two fan-outs |
| `DispatcherRuns.OfferBound` | internal/service/dispatcher.go:492-510 | within one fan-out started below the threshold, how full the channel and how long the streak can be after k events |
| `DispatcherRuns.DeliveryInOrder` | internal/service/dispatcher.go:492-533 | in every run, received plus buffered is the in-order selection of the accepted events fanned out since subscribing; a registered subscriber has a streak below 8 and never missed 8 in a row |
| `DispatcherRuns.RunInv` | internal/service/dispatcher.go:237-268 | the invariant behind both, kept by subscribe, close, stop, receive, gate and fan-out in any order |
| `DispatcherExact.MarkedExactly` | internal/service/dispatcher.go:497-510 | a subscriber is put on the removal list exactly when its streak reached eight at some point of the fan-out |
| `DispatcherExact.OfferNextExactly` | internal/service/dispatcher.go:497-510 | each event is offered after what the consumer has taken by then, accepted exactly when there is room |
| `DispatcherExact.FanOutExactly` | internal/service/dispatcher.go:492-533 | exactly the marked subscribers leave, their channels staying readable, and the others have been offered every event |
| `DispatcherExact.NoChannelLost` | internal/service/dispatcher.go:224-268 | in every run every subscriber ever made is registered or has a closed channel that can still be drained |
| `DispatcherExact.ChannelsFit` | internal/service/dispatcher.go:497-510 | in every run no channel holds more than the buffer size |
| `DispatcherExact.GateExactly` | internal/service/dispatcher.go:476-490 | the gate opens exactly when every registered channel is below the threshold |
| `Dispatcher.ThresholdIsFloor` | internal/service/dispatcher.go:476-480 | the threshold is 90% of the buffer rounded down, or 1 |
| `Common.TrimStrips` | internal/service/dispatcher.go:279 | trimming removes exactly the white space at both ends |
| `Dispatcher.StreamDispatcher.FanOut` | internal/service/dispatcher.go:492-533 | the loops over events, subscribers and the removal list give every subscriber the events in order; exactly those that reached 8 drops in a row at some point are closed, once |
| `Dispatcher.StreamDispatcher.OfferToAll` | internal/service/dispatcher.go:498-510 | one event is offered to every registered subscriber exactly once; exactly those at the drop limit join the removal list |
| `Dispatcher.StreamDispatcher.OfferTo` | internal/service/dispatcher.go:499-509 | the non-blocking send: accepted with the streak reset, or counted as a drop |
| `Dispatcher.StreamDispatcher.EvictAll` | internal/service/dispatcher.go:511-532 | a removal list with repeats closes each listed subscriber once |
| `Dispatcher.StreamDispatcher.SubscribersBackpressured` | internal/service/dispatcher.go:476-490 | true if and only if some registered channel is at or over the threshold |
| `Dispatcher.StreamDispatcher.Subscribe` | internal/service/dispatcher.go:237-251 | registers an empty channel under a fresh ID, leaving the others |
| `Dispatcher.StreamDispatcher.RemoveSubscriber` | internal/service/dispatcher.go:253-268 | closes that subscriber's channel if it is registered, and says whether the dispatcher is now idle |
| `Dispatcher.StreamDispatcher.Stop` | internal/service/dispatcher.go:224-235 | the first stop closes every registered channel once, later ones change nothing |
| `Lifecycle.ChannelsClosedOnce` | internal/service/dispatcher.go:224-268 | in every interleaving no channel is closed twice or sent to after closing, exactly the registered channels are open, and `dropCounts` has the keys of `subscribers` |
| `Lifecycle.InMapIffRunning` | internal/service/dispatcher.go:128-157 | in every interleaving a dispatcher is in the manager's map if and only if its stop has neither begun nor been called: none in the map is stopped and none outside is leaked |
| `Lifecycle.StaleCloseKeepsReplacement` | internal/service/dispatcher.go:151-157 | over any further run, only manager close or a dispatcher's own `removeIfSame` takes it out of the map |
| `Lifecycle.ClosedMapStaysEmpty` | internal/service/dispatcher.go:62-79 | once the manager is closed its map is empty for ever |
| `Lifecycle.CloseSubscriptionExactly` | internal/service/dispatcher.go:253-268 | closing closes the channel if registered, and the dispatcher is due to be removed exactly when nobody is left |
| `Lifecycle.StoppingExactly` | internal/service/dispatcher.go:224-235 | after removal comes stop; the first one closes every channel, later ones do nothing |
| `Lifecycle.GetOrCreateExactly` | internal/service/dispatcher.go:128-149 | subscribing registers on the dispatcher under the key, a new one if there is none |
| `Lifecycle.Manager.GetOrCreate` | internal/service/dispatcher.go:128-149 | refuses when closed, returns the existing dispatcher, or adds a new running one |
| `Lifecycle.Manager.RemoveIfSame` | internal/service/dispatcher.go:151-157 | the asking dispatcher is gone afterwards and every other entry is untouched |
| `Lifecycle.Manager.Close` | internal/service/dispatcher.go:62-79 | empties the map and stops every dispatcher that was in it |
| `AckRuns.AckConservation` | internal/service/dispatcher.go:276-297 | in every run the accepted IDs are exactly those queued, pending or XACKed, and every ID ever sent in an XACK had been accepted |
| `AckRuns.XackedWereAccepted` | internal/service/dispatcher.go:535-583 | every ID an XACK takes effect on had been accepted |
| `AckRuns.XackedAreRecorded` | internal/service/dispatcher.go:535-583 | the IDs the loop counts as XACKed are exactly those its XACKs took effect on |
| `AckRuns.ExitAcksDrained` | internal/service/dispatcher.go:457-474 | if the loop exits after a successful final flush, everything it drained has been XACKed (command errors surfacing through Exec) |
| `AckRuns.Accounting` | internal/service/dispatcher.go:387-455 | in every run the input count is at least the number of pending IDs, and reported input plus input count is everything dequeued plus recounts, with no recounts when command errors surface through Exec |
| `AckRuns.FlushExact` | internal/service/dispatcher.go:405-455 | an error-free flush sends each pending ID in exactly one chunk of at most the batch size, XACKs them all and leaves nothing pending |
| `AckRuns.FlushFailsAt` | internal/service/dispatcher.go:425-446 | a flush whose p-th pipeline is the first to fail leaves pending exactly the IDs from that pipeline's first chunk on |
| `AckRuns.ChunksFrom` | internal/service/dispatcher.go:673-688 | the chunks from j on hold exactly the IDs from position j·size on |
| `AckRuns.FlushRefined` | internal/service/dispatcher.go:405-455 | running a flush pipeline by pipeline gives the same state as the whole flush |
| `AckLoop.Acker.Flush` | internal/service/dispatcher.go:405-455 | the flush loop computes the specified flush, whatever order the map lists its keys in |
| `AckLoop.Acker.FlushAckChunkBatch` | internal/service/dispatcher.go:535-583 | IDs leave the pending set only when Exec succeeded and their own XACK did |
| `AckLoop.Acker.FlushChunks` | internal/service/dispatcher.go:425-446 | pipelines run in order and stop at the first Exec error |
| `AckLoop.Acker.QueueAck` | internal/service/dispatcher.go:276-297 | accepted, the batch queued is every ID that is not blank, trimmed, at strictly increasing positions, and their number is returned; otherwise nothing is queued |
| `AckLoop.CleanedAt` | internal/service/dispatcher.go:277-283 | which IDs cleaning keeps, by position |
| `AckLoop.AckOutcomeExactly` | internal/service/dispatcher.go:284-296 | each of the four outcomes in terms of the request, the room in the queue and cancellation |
| `AckExact.PipelineExactly` | internal/service/dispatcher.go:554-580 | an ID leaves the pending set exactly when Exec succeeded and a command naming it did, and is XACKed exactly when such a command took effect |
| `AckExact.DrainExactly` | internal/service/dispatcher.go:387-403 | draining adds every ID of every queued batch and counts each |
| `AckExact.FlushesWhenDue` | internal/service/dispatcher.go:457-473 | once drained, the loop flushes all pending IDs exactly when it was woken by ticker or cancellation or a full batch is pending |
| `AckExact.QueueBounded` | internal/service/dispatcher.go:288-296 | in every run the ack queue holds at most its capacity |
| `AckExact.EndsOnlyWhenCancelled` | internal/service/dispatcher.go:457-463 | in every run the loop ends only after cancellation |
| `AckLoop.Acker.AddPending` | internal/service/dispatcher.go:387-392 | adds the IDs to the set and counts every one |
| `AckLoop.Acker.DrainQueue` | internal/service/dispatcher.go:394-403 | adds every queued batch in order and leaves the queue empty |
| `AckLoop.ChunkStringSlice` | internal/service/dispatcher.go:673-688 | non-empty chunks of at most the clamped size whose concatenation is the input |
| `AckLoop.ChunksCut` | internal/service/dispatcher.go:673-688 | concatenation gives the list back, and all chunks but the last are full |
| `AckLoop.OrderedLists` | internal/service/dispatcher.go:412-416 | the sorted listing holds every pending ID exactly once |
| `Sorting.SortForgetsOrder` | internal/service/dispatcher.go:412-416 | sorting makes the map's iteration order irrelevant |
| `Sorting.FirstDifferenceDecides` | internal/service/dispatcher.go:412-416 | strings are ordered by their first difference, a prefix first |
| `AckSpans.CountContiguousAckSpans` | internal/service/dispatcher.go:590-634 | for any IDs in any order: spans plus saved is the number of parseable IDs, and spans is the number of maximal runs plus one per repeat |
| `AckSpans.DistinctSpansAreRuns` | internal/service/dispatcher.go:590-634 | for distinct IDs, spans is the number of maximal runs |
| `AckSpans.SpansForgetOrder` | internal/service/dispatcher.go:590-634 | the counts do not depend on the order of the IDs |
| `AckSpans.WrapNeverJoins` | internal/service/dispatcher.go:613-620 | on a sorted list the wrapping uint64 successor joins two entries only if they are true neighbours |
| `AckSpans.RunStartsGrow` | internal/service/dispatcher.go:613-625 | how the set of run starts changes with the next entry in sorted order |
| `AckSpans.DashIndex` | internal/service/dispatcher.go:636-640 | the cut is at the first dash |
| `AckSpans.ParsesAs` | internal/service/dispatcher.go:636-650 | two decimal numbers of 64 bits joined by a dash parse, the first as milliseconds and the second as sequence |
| `AckSpans.ParsesOnly` | internal/service/dispatcher.go:636-650 | nothing else parses |
| `AckSpans.ParseRoundTrip` | internal/service/dispatcher.go:636-650 | writing an ID and parsing it gives it back |
| `AckSpans.ParsedAt` | internal/service/dispatcher.go:595-601 | every ID that parses is counted, in order |
| `SidecarRuns.NoAcceptedPublishLost` | internal/service/service.go:578-616 | in every interleaving of publishes, batches, worker steps, stops and replays with any Redis, scan or rewrite failures: a reply has one slot per request in order, an ID slot names a Redis entry with that request that this very call added, directly or through a job of its own, and a queued slot names a WAL record of that request still in the file or already replayed |
| `SidecarSlots.SlotsNeverShared` | internal/service/grpc.go:85-126 | in every run two slots of replies, of one call or of two, name different Redis entries and different WAL records, so equal requests do not share one |
| `SidecarSlots.RunDistinct` | internal/service/service.go:650-728 | the invariant behind it: no two promises made so far are the same |
| `SidecarAnswers.SuccessIsAnswered` | internal/service/service.go:712-715 | in every run, when a job came back with an ID the call it was made for holds that ID for that request unless the call was rejected; for every job of a call with one request and every job of the pass over single events |
| `SidecarAnswers.QueuedMeansNoSuccess` | internal/service/service.go:587-606 | hence a slot answered "queued" had no successful job: none at all for a call with one request, none in the pass over single events for a batch |
| `BatchRepublished.QueuedThoughPublished` | internal/service/grpc.go:92-114 | for a batch of two, a run whose reply says "queued" of a request whose job of the first pass came back with an ID |
| `SidecarAnswers.RunAnswered` | internal/service/service.go:650-728 | the invariant behind the first two |
| `SidecarAnswers.AwaitAnswers` | internal/service/service.go:712-727 | a result from the worker is the call's next answer, an error or cancellation fails the attempt, queue-full or stopped leads to a direct publish |
| `SidecarAnswers.SubmitAnswers` | internal/service/publish_pipeline.go:124-142 | a call going to the pipeline makes one job for its next request and waits, fails or publishes directly by how that went |
| `SidecarAnswers.DirectAnswers` | internal/service/service.go:716-724 | a direct publish that is answered gives its entry's ID, any other fails the attempt |
| `SidecarAnswers.FailureAnswers` | internal/service/service.go:587-606 | a failed attempt is rejected or written to the log, and written means queued with a new record of that request; in the first pass of a batch it ends the pass |
| `SidecarAnswers.BatchFailureAnswers` | internal/service/grpc.go:92-114 | a failed batch is rejected if some of it was answered or the error says so, otherwise published again event by event |
| `SidecarAnswers.EnqueueManyAnswers` | internal/service/publish_pipeline.go:79-100 | one job per request in order; full or stopped sends the whole batch directly, cancelled fails it |
| `SidecarAnswers.CollectAnswers` | internal/service/service.go:666-693 | with all results in, the reply is all IDs if there is no error, otherwise the batch failed with the IDs before the first error |
| `SidecarAnswers.ReplayNextExactly` | internal/wal/wal.go:188-220 | when a replay publishes a line, when the line leaves, and when the pass ends |
| `SidecarRuns.FoundRecordsKept` | internal/wal/wal.go:160-235 | what the log held at start-up stays in the file or is replayed; undecodable lines always stay |
| `SidecarRuns.FallbackNeverDuplicates` | internal/service/service.go:712-724 | once a publish has fallen back to the direct path, the job it gave up on never reaches Redis, however the run goes on |
| `SidecarRuns.RunGood` | internal/service/service.go:650-728 | the invariant behind these, over calls, pipeline and log together, for every run |
| `Sidecar.GoodPrefix` | internal/service/service.go:685-692 | the IDs before the first failed result, aligned with the results |
| `PipelineRuns.OwnResultOnce` | internal/service/publish_pipeline.go:224-272 | in every run a job is sent at most one result, a success is the position of that job's own XADD with its own request, and the log holds at most one worker entry per job |
| `PipelineRuns.SendNeverBlocks` | internal/service/publish_pipeline.go:224-272 | whenever the worker is about to answer a job its one-slot channel is empty |
| `PipelineRuns.ResultsBeforeDone` | internal/service/publish_pipeline.go:168-221 | when `doneCh` closes every dequeued job has exactly one result |
| `PipelineRuns.SafeFallback` | internal/service/publish_pipeline.go:119-155 | a job for which `Publish` returned queue-full or stopped was not and never will be sent by the worker |
| `PipelineRuns.QueueIsFifo` | internal/service/publish_pipeline.go:182-221 | over any further run from any reachable state, dequeued jobs followed by queued ones are only extended at the end: no job overtakes another |
| `PipelineRuns.XaddsInQueueOrder` | internal/service/publish_pipeline.go:224-246 | the jobs issued are the dequeued ones in order minus the cancelled; between batches nothing else is missing but the buffer |
| `PipelineRuns.LoopHead` | internal/service/publish_pipeline.go:179-221 | at the loop head the byte counter is the sum of the buffered estimates, the buffer is below both limits (empty without a flush interval), and 128·jobs is below the byte limit |
| `PipelineRuns.RunInv` | internal/service/publish_pipeline.go:119-272 | the invariant behind these, kept by every caller and worker step |
| `PipelineRuns.RepliesAreOwn` | internal/service/publish_pipeline.go:237-271 | whatever other clients add between two XADDs of a batch, every reply waiting to be delivered is for an issued job and a success is the position of that job's own entry |
| `PipelineExact.EnqueueExactly` | internal/service/publish_pipeline.go:131-142 | queued exactly when there is room, full exactly when there is none and nothing else is ready, stopped only after the worker's end, cancelled only when cancelled |
| `PipelineExact.AwaitExactly` | internal/service/publish_pipeline.go:143-154 | a result that is there is what the caller gets, also after the worker's end |
| `PipelineExact.ResultReachesCaller` | internal/service/publish_pipeline.go:143-154 | a result once sent stays in the channel until the caller returns with it, however the run goes on |
| `PipelineExact.XaddExactly` | internal/service/publish_pipeline.go:244-246 | a command that took effect adds the job's own entry, and the reply is its ID exactly when it also answered |
| `PipelineExact.ExecExactly` | internal/service/publish_pipeline.go:252-271 | Exec's outcome settles every reply: its own, or an error for all |
| `PipelineExact.FlushesWhenDue` | internal/service/publish_pipeline.go:205-219 | after draining the buffer becomes a batch exactly when it is not empty and the worker is ending, has no interval or reached a limit |
| `PipelineExact.JobsExactly` | internal/service/publish_pipeline.go:119-129 | a new job is neither cancelled nor answered, and cancelling touches that job only |
| `PipelineExact.QueueBounded` | internal/service/publish_pipeline.go:131-142 | in every run the queue holds at most its capacity |
| `PipelineExact.EndsOnlyWhenStopped` | internal/service/publish_pipeline.go:161-209 | in every run the worker ends only after `Close` |
| `PipelineExact.EstimateIsSize` | internal/service/publish_pipeline.go:274-285 | the estimate is the length of the fields together, 8 more with a time to live, at least 128 |
| `PipelineOrder.LogFollowsQueue` | internal/service/publish_pipeline.go:224-246 | in every run the worker's entries in the Redis log are, in log order, the queue order minus cancelled jobs and XADDs that did not take effect |
| `PipelineWorker.Worker.FlushBatch` | internal/service/publish_pipeline.go:224-272 | every job of the batch gets exactly one result (an error if cancelled, otherwise its own command's), nobody else gets any, and the log grows by the live jobs' entries in batch order |
| `PipelineWorker.Worker.Collect` | internal/service/publish_pipeline.go:235-249 | cancelled jobs are answered, the live ones kept in order |
| `PipelineWorker.Worker.Reply` | internal/service/publish_pipeline.go:251-271 | every live job is answered once |
| `PipelineWorker.Worker.Drain` | internal/service/publish_pipeline.go:193-203 | the whole queue moves to the buffer in order and the byte counter follows |
| `PipelineWorker.Worker.OnJob` | internal/service/publish_pipeline.go:212-219 | taking a job, draining and flushing when due leads back to the loop head below both limits |
| `PipelineWorker.RepliesTruthful` | internal/service/publish_pipeline.go:237-271 | each job of a batch gets one reply in order, and a success points at the entry its own command added |
| `PipelineWorker.LiveAt` | internal/service/publish_pipeline.go:237-246 | the live jobs sit at strictly increasing positions of the batch, exactly those not cancelled |
| `PipelineWorker.BatchBuiltTogether` | internal/service/publish_pipeline.go:237-246 | the machine's build steps, run without interruption, leave the live jobs in batch order and tell the cancelled ones |
| `PipelineWorker.BatchSentTogether` | internal/service/publish_pipeline.go:237-252 | the machine's XADDs, run without interruption, give the log and the replies of `FlushBatch` |
| `PipelineWorker.ToldAreBatchResults` | internal/service/publish_pipeline.go:252-271 | what Exec's outcome makes of the replies is the same in both |
| `AdaptiveRouting.AdaptiveBound` | internal/service/service.go:696-710 | in every interleaving the counter is the number of calls in flight, and at most `PublishPipelineMinBatch`−1 of them are adaptive-direct |
| `AdaptiveRouting.BoundReached` | internal/service/service.go:730-737 | that bound is reached, so it is the exact maximum |
| `AdaptiveRouting.DecidesExactly` | internal/service/service.go:730-737 | a call goes direct exactly when fewer than a batch of calls are in flight and the queue with this request would be short of one |
| `WalRuns.RunIsFifo` | internal/wal/wal.go:160-248 | over any run without scan or rewrite errors, replayed requests followed by the decodable ones in the file are the requests put in, in order, and undecodable lines stay in order |
| `WalRuns.RunLosesNothing` | internal/wal/wal.go:160-248 | with any errors, entries may repeat but none disappears or overtakes another: what went in is a subsequence of what was replayed or is queued, the decodable part of the file is the end of what went in, and undecodable lines stay |
| `WalRuns.RunKeepsCaps` | internal/wal/wal.go:90-131 | in every run depth is the number of non-blank lines and both caps hold |
| `WalRuns.ReplayMovesPrefix` | internal/wal/wal.go:160-235 | one replay publishes a prefix of the queued requests, at most as many as asked, and leaves the rest in order |
| `WalExact.CleanReplayMoves` | internal/wal/wal.go:160-235 | a clean replay publishes and removes exactly the first n queued requests, n the least of the limit, the number queued and the calls before the first failure; with a working Redis as many as asked for or are there |
| `WalExact.ReplayPublishes` | internal/wal/wal.go:188-220 | whatever fails later, exactly those requests were published |
| `WalExact.PassPublishes` | internal/wal/wal.go:188-220 | the same for one pass, and the exact number of publish calls |
| `WalExact.PassRetains` | internal/wal/wal.go:188-220 | the rest stays in its order: exactly the undecodable lines and those with n decodable lines before them |
| `WalExact.ReplayFailsExactly` | internal/wal/wal.go:175-229 | a replay reports an error exactly when the file cannot be opened, a line is too long, or the remainder of a log with records cannot be written back |
| `WalExact.AppendSucceedsExactly` | internal/wal/wal.go:90-131 | an append succeeds exactly when both caps leave room, the entry encodes and the file works; which refusal otherwise |
| `WalExact.LinesAreTheFile` | internal/wal/wal.go:184-192 | the lines, each ended by a newline, are the file, also when its last line is not terminated |
| `WalExact.UndecodableAt` | internal/wal/wal.go:206-209 | the undecodable lines are exactly those the decoder refuses, in order |
| `WalRuns.ReplayRewrites` | internal/wal/wal.go:223-248 | scanning a rewritten file returns exactly the retained lines, and neither size nor depth grows |
| `WalRuns.ReplayCallBound` | internal/wal/wal.go:160-222 | a replay makes at most `maxEntries` publish calls, failures included |
| `WalRuns.Reopen` | internal/wal/wal.go:48-70 | reopening the file of any reachable state succeeds if and only if its lines fit the default scanner, and then recomputes the cached depth |
| `WalLog.Log.Append` | internal/wal/wal.go:90-131 | refused with the source's error in the source's order of checks, leaving everything; or one line and one depth more |
| `WalLog.Log.Replay` | internal/wal/wal.go:160-235 | file, depth, published requests and error of a replay, including the early returns |
| `WalLog.PublishLines` | internal/wal/wal.go:184-222 | the scanning loop publishes and retains what the specification says |
| `WalLog.RewriteIsUnlines` | internal/wal/wal.go:237-248 | joining with newlines and terminating is one newline-terminated line per retained line |
| `WalLog.Open` | internal/wal/wal.go:48-70 | opening fails if and only if some line is too long to count, else depth is the number of non-blank lines |
| `WalLog.CountFileLines` | internal/wal/wal.go:250-265 | the number of non-blank lines |
| `Wal.ReplayIsFifo` | internal/wal/wal.go:184-222 | any replay pass publishes a prefix, keeps the rest and every undecodable line in order, and bounds the calls |
| `Wal.RecordsOfAppend` | internal/wal/wal.go:118-131 | appending a record to a newline-terminated file appends exactly that record |
| `Wal.RecordsOfUnlines` | internal/wal/wal.go:237-248 | writing records and scanning them back is the identity |
| `DlqScan.GroupScanner.ScanGroup` | internal/service/service.go:327-398 | the paged scan, which shrinks the list it pages through, has the effect of one pass in ID order over the rows visited, each exactly once; it visits all rows, or exactly the full pages before the first one whose reading fails |
| `DlqScan.GroupScanner.ScanNextPage` | internal/service/service.go:327-398 | one page advances the visited prefix and the cursor together, and the loop ends only when all rows are visited |
| `DlqScan.GroupScanner.MoveEntry` | internal/service/service.go:402-445 | the copy is added before the acknowledgement at every failure point; the entry stays pending unless its XACK took effect |
| `DlqScan.CursorSeesRest` | internal/service/service.go:327-396 | after any visited prefix the exclusive cursor sees exactly the rows not visited yet |
| `DlqScan.PageIsNext` | internal/service/service.go:327-340 | the next page is the next rows of the original list |
| `DlqScan.CleanScan` | internal/service/service.go:349-360 | without errors exactly the eligible entries whose message exists leave the list, and the copies are theirs, one each, in the order of the list |
| `DlqScan.KeptAt` | internal/service/service.go:349-360 | the surviving rows keep their order: exactly those the policy leaves alone or whose acknowledgement does not land |
| `DlqScan.CopiesInOrder` | internal/service/service.go:349-360 | with any errors the copies added are those of strictly increasing positions of the list, exactly the positions whose copy lands |
| `DlqScan.NothingDroppedByScan` | internal/service/service.go:402-445 | with any errors an entry leaves the list only if its copy is in the dead-letter stream |
| `DlqScan.KeptOrdered` | internal/service/service.go:327-398 | what survives a scan is still ordered, so the next scan may page through it |
| `DlqReplay.Replayer.Replay` | internal/service/dlq_replay.go:58-145 | the tally counts exactly the entries handled completely; an error concerns the next entry only, of which what took effect is all there is beyond; with an override everything goes there; nothing is deleted unless asked, and then exactly what was put back; whatever fails, an entry gone was put back first |
| `DlqReplay.OverrideDecides` | internal/service/dlq_replay.go:92-105 | with an override every entry goes to it, or, if it may not be published to, none does, whatever the fields |
| `DlqReplay.NamedStreamDecides` | internal/service/dlq_replay.go:93-105 | without one an entry goes to the stream it names, and is skipped if it names none or one that may not be published to |
| `DlqReplay.PickedAt` | internal/service/dlq_replay.go:68-81 | the entries read are the first of the asked range, up to 1000, or 100 without a count |
| `DlqReplay.RequeuesAt` | internal/service/dlq_replay.go:91-139 | of the entries read exactly those with an allowed target are put back, in order |
| `DlqReplay.Replayer.ReplayPicked` | internal/service/dlq_replay.go:91-139 | the loop over the entries read, with the same guarantees |
| `DlqReplay.Replayer.RequeueEntry` | internal/service/dlq_replay.go:107-135 | exactly when the XADD and the XDEL take effect at each fault; the XDEL never without the XADD |
| `DlqReplay.DoneSafe` | internal/service/dlq_replay.go:91-139 | after any completed prefix, every missing entry was put back |
| `Dlq.Cycles` | internal/service/dlq_replay.go:107-118 | after any number of move/replay cycles user fields are unchanged, the `dlq_` keys are exactly replayed_from, replayed_at and original_id, and original_id is the first dead-lettered ID unless the message brought one |
| `DlqReplay.ReplayUndoesMove` | internal/service/dlq_replay.go:91-105 | a replay without override puts a dead-lettered message back on the stream it came from if and only if the message names no other `dlq_original_stream` and that stream may be published to |
| `DlqReplay.CycleReturns` | internal/service/dlq_replay.go:91-118 | the same on the k-th move of a message that went through cycles: what it names matters on the first move only, the publish streams on every one |
| `DlqReplay.AllCyclesReturn` | internal/service/dlq_replay.go:91-118 | every cycle brings the message back if and only if it starts without naming another stream and every stream it is moved from may be published to |
| `DlqReplay.ConsumeOnlyStreamIsSkipped` | internal/service/dlq_replay.go:102-105 | a message of a stream consumed but not published is skipped by every replay without override |
| `DlqReplay.NamedStreamOverrides` | internal/service/dlq_replay.go:91-97 | a message that arrives naming another stream is sent there |
| `Dlq.ReplayGoesBack` | internal/service/dlq_replay.go:91-97 | the target string alone: on every cycle it is the stream last moved from if and only if the message did not start with another `dlq_original_stream` |
| `DlqLinks.MoveEntryAgrees` | internal/service/service.go:402-445 | for every fault, the interleaved model's XADD and XACK of a move have the effect the scanner's model gives |
| `DlqLinks.RequeueEntryAgrees` | internal/service/dlq_replay.go:107-135 | for every fault, the interleaved model's XADD and XDEL of a replay have the effect the replayer's model gives |
| `Dlq.CleanMessageCycles` | internal/service/service.go:417-428 | a message without `dlq_` fields comes back as itself plus those three keys |
| `Dlq.OneCycle` | internal/service/service.go:417-428 | one move and one replay |
| `Dlq.MoveKeepsUserFields` | internal/service/service.go:417-428 | the dead-letter copy carries the message's own fields |
| `Dlq.CopySays` | internal/service/service.go:417-426 | the copy of a message without `dlq_` fields has exactly the seven metadata fields with their values |
| `Dlq.ReplayKeepsUserFields` | internal/service/dlq_replay.go:107-118 | a replayed entry carries the user fields and only the three metadata keys |
| `Dlq.BuildDlqValues` | internal/service/service.go:417-428 | the loop over the message's fields builds the copy, the message winning over the metadata |
| `Dlq.BuildReplayValues` | internal/service/dlq_replay.go:107-118 | the loop strips `dlq_` fields and stamps the three keys |
| `NoVanishRuns.NothingVanishes` | internal/service/service.go:402-445 | in every interleaving of deliveries, acknowledgements through ack loops or directly, moves and replays with any failures: a message nobody acknowledged that is no longer pending has a dead-letter copy, and an entry with its user fields is present in some stream |
| `NoVanishRuns.PendingLeavesSafely` | internal/service/dispatcher.go:381-474 | a delivered message is pending, or the ack loop of a dispatcher of its stream and group accepted its ID, or a client's acknowledgement of it was accepted or sent, or its dead-letter copy exists |
| `NoVanishRuns.RunAcks` | internal/service/dispatcher.go:107-126 | the invariant behind it: every loop conserves its IDs, every ID a loop accepted came from an acknowledgement with its key, and every XACKed message was acknowledged |
| `NoVanishRuns.RunNamesIdentify` | internal/service/dispatcher.go:535-551 | a stream and an entry ID name one message |
| `NoVanishExact.LoopExactly` | internal/service/dispatcher.go:535-551 | an ack loop's step takes off the pending list exactly the messages of its stream and group its XACKs take effect on |
| `NoVanishExact.DirectAckExactly` | internal/service/consume.go:152-172 | a direct acknowledgement takes off exactly the messages it names, if allowed and if its XACK takes effect |
| `NoVanishExact.ClaimsExactly` | internal/service/dispatcher.go:107-126 | what counts as a client's acknowledgement: each trimmed ID of a request its dispatcher accepted |
| `NoVanishExact.DirectClaimsExactly` | internal/service/consume.go:152-172 | and each ID of a direct request for a stream that may be consumed |
| `NoVanishExact.QueueAckExactly` | internal/service/dispatcher.go:107-126 | a queued acknowledgement goes to the dispatcher in the map under its key, and no list changes yet |
| `AckRouting.AcksNeverStray` | internal/service/dispatcher.go:107-126 | in every run every message that left its pending list was dead-lettered or acknowledged itself (its stream, group and ID) if and only if no stream that may be consumed continues another one with a bar |
| `AckRouting.AcksStayOnTheirGroup` | internal/service/dispatcher.go:107-126 | the "if" half |
| `AckRouting.StrayRun` | internal/service/dispatcher.go:107-126 | the other half: for any two streams with a shared key, a run in which one's acknowledgement takes the other's message off its pending list |
| `AckRouting.ListedWithoutBar` | internal/service/dispatcher.go:669-671 | consume streams listed by names without a bar meet the condition |
| `AckRouting.UnlistedCollides` | internal/config/config.go:187-197 | with no list of consume streams the condition fails |
| `DispatcherKeys.CollisionExact` | internal/service/dispatcher.go:669-671 | two streams have groups with one key if and only if one name continues the other with a bar and something a group may start with |
| `DispatcherKeys.KeyInjective` | internal/service/dispatcher.go:669-671 | for stream names without a bar the key determines stream and group |
| `DispatcherKeys.BarCollides` | internal/service/dispatcher.go:669-671 | group "c" of a stream named a, bar, b and group b, bar, c of stream "a" have one key |
| `NoVanishRuns.DeletedOnlyAfterRequeue` | internal/service/dlq_replay.go:120-135 | an entry is deleted only after a replay added one with the same user fields |
| `NoVanishRuns.LiveDescendant` | internal/service/dlq_replay.go:120-135 | following requeues from any entry ends at one that is still present |
| `NoVanish.RunInv` | internal/service/service.go:402-445 | the invariant behind these, kept at every intermediate failure point of move and replay |

## Left out

- HTTP and gRPC handlers, generated protobuf code, health endpoints, metrics collectors, logging and the smoke commands: no state across calls.
- Configuration loading and DLQ policy parsing: the resolved values are parameters, positive where the loader enforces it.
- Request normalisation (`normalizePublishRequest`): calls start with normalised requests; rejected ones never reach the modelled part.
- JSON: an encoder that yields newline-free, trimmed, non-empty lines and a decoder that yields a normalised request are parameters (`WalLog.Lawful`); payloads need not come back byte for byte.
- Stream trimming by MAXLEN, clocks, timeouts, fsync and torn writes: the log only grows, timestamps and timer ticks are arbitrary, file writes and renames happen as a whole or not at all.
- White space outside ASCII in `strings.TrimSpace`; one char stands for one byte.
- Overflow of 64-bit counters (subscriber IDs, depth, byte counts) and of `len+size-1` in the chunk capacity; the 0.9 threshold is an integer floor. The uint64 wrap in span counting is modelled.
- At-most-once for `PublishMany` and `PublishBatch` is not claimed: a queue that fills mid-batch leaves earlier jobs queued while the fallback publishes all of them again.
- A bound of `maxBatch` on the size of a batch is not claimed: draining has no cap.
- That every live subscription sits on a running dispatcher is not claimed: subscribing happens outside the manager's lock and can follow a stop.
- That acknowledgements accepted after cancellation are flushed is not claimed.
- Retries inside the Redis client library: a command takes effect at most once and not after its call has returned.
- The XACKs of one pipeline are one step of the ack loop, each with its own outcome; commands of other clients between two of them are not told apart.
- Dispatcher keys are opaque in `Lifecycle`; `NoVanish` computes them.
- `publishBatchToRedis` and `PublishBatch` are steps of the `Sidecar` machine rather than imperative loops, because other goroutines act between any two of their iterations.
- `Lifecycle`'s machine identifies dispatchers by number and keeps only the key sets of their maps; which subscribers a fan-out evicts is left open there and fixed in `Dispatcher`.
- Redis entry IDs are positions (or numbers) except in `AckSpans`, where they are text; in `NoVanish` an entry has both, its text unique within its stream.
- Concurrent additions to the pending list during a dead-letter scan; deliveries, moves and replays interleave in `NoVanish`, with each move started from any pending entry.
