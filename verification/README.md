# Verified model of the platform's stateful cores

An AIOps platform made of Go sidecars and a Python orchestrator. This project models the parts of it that
keep state under failures, concurrency or search, and proves what they guarantee:

- the **event pipeline** of the event collector: a write-ahead log with out-of-order acknowledgements, a
  watermark, compaction and restart (`Wal`, `WalLog`); the writer on top of it with its retry queue, replay
  and interleaved goroutines (`Writer`, `EventWriter`); the tab-separated batches it sends (`Tsv`); the cache
  of event ids already seen (`Dedup`);
- the **knowledge-graph searches** (`Walks`, `KgGraph`);
- the **investigation protocol**: dispatcher queue and workers (`Dispatcher`), lease renewal (`Lease`),
  outcome normalisation (`Outcome`), and the run's status as a compare-and-set register that others write to
  as well (`Runtime`);
- the **action executor**: payloads and reconciliation (`Patch`), reading and conditionally writing objects
  that other clients change at any moment (`Executor`), the shared credential slot (`Credential`);
- the **evidence store** (`Evidence`), with the text its digests run over (`Json`), and the **request limiter** (`RateLimit`).

Code that changes fields is modelled by classes whose methods are proved against step functions; the step
functions carry the theorems about whole runs and interleavings. What the environment does (answers that get
lost, writes by other clients, crashes, renewal failures, set order) is left open: by arbitrary choices inside
a method, by parameters, or by extra steps of a transition system.

## Where the code does not do what it is meant to

Each of these is proved with an input or run that shows it and with the exact condition under which the code is right.

- A crash between installing the compacted log and writing the acknowledgement file can make a later batch
  unreadable. The restarted log keeps every later batch exactly when no acknowledgement left on disk is above
  the highest number it recovers (`Wal.RestartVisibleIff`, `Wal.CrashInCompactHidesBatch`).
- `Ack` accepts any number. It keeps the log recoverable exactly for numbers not above the file's last one, or
  handed out with everything below them acknowledged (`Wal.AckKeepsValid`, `Wal.AckAfterCompactHidesBatch`).
- A replay can queue a batch whose own goroutine is still waiting to queue it. Queue and log stay in step exactly
  when no replay does so (`Writer.ReplayKeepsTidy`, `Writer.StepKeepsTidy`). A batch queued twice is acknowledged
  twice, and if a failed write has left a gap below its number, that second acknowledgement is one the log does not
  allow (`Writer.UndisciplinedRunLosesBatch`). A step leaves every continuation by restarts and first sends without
  loss exactly when the log allows it (`Writer.AdmissibleIffNothingLost`).
- A tool result whose fingerprint is known is reused exactly if its tenant, cluster and run ids are canonical UUID
  text and the ids of the result the evidence was made from were UUIDs in whatever spelling; otherwise it is refused as
  another owner's (`Evidence.KnownRefusedIff`, `Evidence.RunRefusesIff`). A result with a label for an id is refused
  when saved again (`Evidence.LabelRefusedAgain`), and one that comes first with a blank before an id keeps out the
  result with the ids spelled as they should be (`Evidence.PaddedIdKeepsOutCanonical`).
- `save_from_tool_result` writes under its derived id without looking; it keeps store and index intact exactly
  when that id is not taken by other evidence (`Evidence.StepKeepsConsistent`, `Evidence.SaveToolOverwrites`).
- An error among the events of an outcome is meant to leave an error code. A result that holds an empty `error_code`
  entry keeps it, so a partial outcome can end without one; a code is left exactly when the outcome fails or regresses
  or there is no such entry (`Outcome.ErrorLeavesCodeIff`, `Outcome.EmptyCodeHidesError`).
- Reconciliation reads a missing annotation as the empty string, so it reports a requested empty annotation as
  applied on an object that lacks it (`Patch.ReconcileAgreesWithPatch`, `Patch.EmptyAnnotationFools`).
- A scale whose count cannot be read, because it is text or exceeds 32 bits, is sent as a scale to 0 and cannot be
  judged by reconciliation; without a readable count 0 is sent exactly if the field is present and not null, and 1
  otherwise (`Patch.UnreadableCountIff`, `Patch.UnreadableCountScalesToZero`).
- A handler that the credential broker refuses does not empty the token slot (`Credential.RefusedHandlerLeavesSlot`).

Where code and documentation disagree the model follows the code: `ai-event-collector/README.md` says every
batch is written to the log before it is sent, the code appends only after a first send has failed, so the
durability theorems speak of appended batches; it calls the retry queue bounded, but start-up recovery and
failed passes can exceed the limit of 100, so no bound on the queue is claimed; `save_from_tool_result` accepts
the claim type `knowledge` but the evidence contract (`ai-orchestrator/contracts.py:464`) then always refuses it.

## Model

| member | source | states |
|---|---|---|
| WalLog.WriteAheadLog.constructor | ai-event-collector/wal.go:72-90 | opening a log yields the state recovered from its two files: watermark, acknowledgements above it, and the highest number in use |
| WalLog.WriteAheadLog.ScanLastSeq | ai-event-collector/wal.go:293-312 | the scan returns the highest number in the file |
| WalLog.WriteAheadLog.Append | ai-event-collector/wal.go:93-115 | an append uses up the next number in every case, puts one entry at the end unless nothing was written, reports the number only after a sync, and fails for good once a write has failed, until the log is opened anew |
| WalLog.WriteAheadLog.Ack | ai-event-collector/wal.go:118-133 | the watermark loop ends in the acknowledgement step and persists it |
| WalLog.WriteAheadLog.PersistAck | ai-event-collector/wal.go:242-251 | the acknowledgement file holds what memory holds |
| WalLog.WriteAheadLog.ReadRemaining | ai-event-collector/wal.go:269-291 | the scan returns the unacknowledged entries above a number, in file order |
| WalLog.WriteAheadLog.ReadAll | ai-event-collector/wal.go:136-140 | reading the log gives the pending entries |
| WalLog.WriteAheadLog.PendingStats | ai-event-collector/wal.go:142-176 | the statistics are the number of pending entries, their bytes, and the earliest known append time, or now if none is known |
| WalLog.OldestIsMinimum | ai-event-collector/wal.go:168-174 | the reported time belongs to a pending entry and no pending entry with a known time is older |
| WalLog.BytesMeans | ai-event-collector/wal.go:155-166 | exactly the decodable entries count, each with its rows |
| WalLog.WriteAheadLog.Compact | ai-event-collector/wal.go:192-231 | a compaction takes the compaction step, in both of its branches; only the one that writes a new file also brings a working writer back |
| Wal.UnackedExact | ai-event-collector/wal.go:269-291 | exactly the entries neither below the watermark nor acknowledged are read, still in increasing order |
| Wal.LastSeqBounds | ai-event-collector/wal.go:293-312 | the last number bounds all numbers in the file and is one of them |
| Wal.AdvanceKeepsKnowledge | ai-event-collector/wal.go:124-131 | the watermark loop never moves the watermark back, stops at a gap, and leaves the set of known acknowledged numbers as it was |
| Wal.AckKnowledge | ai-event-collector/wal.go:118-133 | an acknowledgement adds exactly its own number to the known ones, and the record read back from disk knows the same |
| Wal.KnowledgeDeterminesRecord | ai-event-collector/wal.go:25-29 | the known numbers determine watermark and set uniquely, so the record loses nothing |
| Wal.StepRefines | ai-event-collector/wal.go:72-140 | every operation moves the pending view as the abstract log: append adds one entry at the end, acknowledging removes exactly one number, compaction, restart and a crash in a compaction change nothing |
| Wal.StepKeepsValid | ai-event-collector/wal.go:192-231 | the recovery invariant survives an operation if and only if the operation is admissible |
| Wal.AckKeepsValid | ai-event-collector/wal.go:118-133 | acknowledging keeps the invariant exactly for numbers in the file's range or swallowed by the watermark at once |
| Wal.AppendKeepsValid | ai-event-collector/wal.go:93-115 | an append keeps the invariant however far it got |
| Wal.AppendMeans | ai-event-collector/wal.go:93-115 | an append uses up the next number and stores exactly its kind, rows and time at the end, unless this or an earlier write failed |
| Wal.CompactKeepsValid | ai-event-collector/wal.go:192-231 | a completed compaction keeps the invariant |
| Wal.CompactReclaims | ai-event-collector/wal.go:191-231 | after a compaction the file holds exactly the pending entries, nothing is acknowledged in memory, and writer and acknowledgement file are new unless everything was acknowledged |
| Wal.AppendIsFresh | ai-event-collector/wal.go:93-115 | a new number is above every pending one and is not already acknowledged |
| Wal.RunRefines | ai-event-collector/wal.go:72-231 | over every admissible sequence of operations, restarts and crashes the invariant holds and reading the log equals the abstract log |
| Wal.AppendsVisibleIff | ai-event-collector/wal.go:93-140 | all later batches can be read back if and only if the writer is not stuck behind a failed write and no remembered acknowledgement is above the last number in use |
| Wal.RestartVisibleIff | ai-event-collector/wal.go:72-90 | the same for a restart, in terms of the two files alone |
| Wal.RecoverMeans | ai-event-collector/wal.go:72-90 | what a restart makes of each of the three kinds of acknowledgement file, and numbering from the highest number there is |
| Wal.RecoveredReads | ai-event-collector/wal.go:254-267 | which entries are read after it: all, those above an old file's number, or those a new file has not acknowledged |
| Wal.CrashInCompactHidesBatch | ai-event-collector/wal.go:222-230 | a run from an empty log to a state in which a crash between rename and persist hides the next batch for good |
| Wal.AckAfterCompactHidesBatch | ai-event-collector/wal.go:121-132 | a run from an empty log to a state in which acknowledging a compacted number above a gap hides the second batch after a restart |
| Writer.ReplayAddsStored | ai-event-collector/ingest_writer.go:252-270 | a replay keeps the queue as it is and appends only batches stored in the log |
| Writer.ReplayAddsNoDuplicate | ai-event-collector/ingest_writer.go:252-270 | a replay never queues a log number twice |
| Writer.ReplayExact | ai-event-collector/ingest_writer.go:252-270 | a replay queues exactly the decodable batches that are missing, oldest first, as far as there is room |
| Writer.ReplayBounded | ai-event-collector/ingest_writer.go:259-270 | a replay fills the queue up to a hundred batches at most, in the order of their numbers |
| Writer.OthersOnlyExtendLog | ai-event-collector/ingest_writer.go:248-252 | what other goroutines do between reading the log and the replay only makes the log longer, so a replay works on a prefix of it |
| Writer.ReplayComplete | ai-event-collector/ingest_writer.go:252-270 | a replay that ends below the limit has queued every decodable pending entry |
| Writer.ReplayIdempotent | ai-event-collector/ingest_writer.go:242-271 | replaying twice is replaying once |
| Writer.RecoveredExact | ai-event-collector/ingest_writer.go:108-117 | start-up queues exactly the decodable pending batches, each once |
| Writer.RecoveredRises | ai-event-collector/ingest_writer.go:108-117 | start-up queues in the order of the numbers |
| Writer.FirstSendKeepsGood | ai-event-collector/ingest_writer.go:157-181 | a first send, accepted, refused or with its answer lost, keeps the at-least-once invariant |
| Writer.SendKeepsGood | ai-event-collector/ingest_writer.go:282-295 | a send of a retry pass keeps it exactly when its acknowledgement, if any, is one the log allows |
| Writer.FinishKeepsGood | ai-event-collector/ingest_writer.go:296-306 | the end of a pass, with failures put back or the log compacted, keeps it |
| Writer.CloseCompactKeepsGood | ai-event-collector/ingest_writer.go:512-519 | the compaction of the pass that shutdown starts keeps it, even while the other pass is under way |
| Writer.RestartKeepsGood | ai-event-collector/ingest_writer.go:101-121 | a restart, or a crash at any point, queueing what the log holds, keeps it exactly when the log survives |
| Writer.MemoryLedger | ai-event-collector/ingest_writer.go:186-210 | while the process lives a batch leaves memory only when accepted or when given up at shutdown with a full queue |
| Writer.OnlyAcceptedLeave | ai-event-collector/ingest_writer.go:282-294 | an entry leaves the pending log only in the step in which ingest accepted its rows |
| Writer.FirstSendMeans | ai-event-collector/ingest_writer.go:157-181 | an accepted first send leaves nothing to do; any other appends the rows and leaves a batch waiting with the number it got |
| Writer.SendMeans | ai-event-collector/ingest_writer.go:282-295 | a send takes the front batch; accepted, its number is not read from the log any more, else it goes behind the others that failed |
| Writer.QueueMeans | ai-event-collector/ingest_writer.go:186-307 | first in, first out with at most a hundred batches before another enters; failures go back in front; only a pass without failures compacts |
| Writer.TidyAcksAllowed | ai-event-collector/ingest_writer.go:290-293 | when every numbered batch in memory is unique and pending, each acknowledgement issued is one the log allows |
| Writer.ReplayKeepsTidy | ai-event-collector/ingest_writer.go:242-271 | a replay keeps numbered batches unique and pending exactly when it queues none whose goroutine is still waiting; with a full queue it never does |
| Writer.StepKeepsGood | ai-event-collector/ingest_writer.go:157-307 | a step of any kind keeps the at-least-once invariant if and only if the log allows it |
| Writer.StepKeepsTidy | ai-event-collector/ingest_writer.go:157-307 | every step keeps them unique and pending, a replay exactly when it overtakes no waiting goroutine |
| Writer.RunAtLeastOnce | ai-event-collector/ingest_writer.go:157-307 | in every run with allowed acknowledgements, counted with multiplicity, each durably appended batch was accepted or is still read from the log |
| Writer.AdmissibleIffNothingLost | ai-event-collector/ingest_writer.go:101-210 | a step is one the log allows if and only if no continuation by restarts and first sends loses a durably appended batch |
| Writer.DisciplinedRunAtLeastOnce | ai-event-collector/ingest_writer.go:157-307 | the same without any condition on acknowledgements, if no replay overtakes a waiting goroutine |
| Writer.FirstStart | ai-event-collector/ingest_writer.go:80-125 | a writer opened on any well-formed disk is a state the run theorems start from |
| Writer.UndisciplinedRunLosesBatch | ai-event-collector/ingest_writer.go:168-177 | a run of allowed steps with one overtaking replay, after which an ordinary send is acknowledged although the log does not allow it and a later batch can be lost |
| EventWriter.Sender.constructor | ai-event-collector/ingest_writer.go:108-117 | the start-up loop queues what recovery prescribes |
| EventWriter.Sender.StoreFailed | ai-event-collector/ingest_writer.go:168-177 | a failed batch is appended and carries its number, or 0 if the append failed |
| EventWriter.Sender.Flush | ai-event-collector/ingest_writer.go:157-181 | an accepted batch needs nothing more, any other is appended and handed over to be queued |
| EventWriter.Sender.TryEnqueue | ai-event-collector/ingest_writer.go:186-210 | one round of the wait: queued at the end if there is room, else left to the log only at shutdown, or kept in memory without a log |
| EventWriter.Sender.ReplayWAL | ai-event-collector/ingest_writer.go:244-271 | the loop with its set of seen numbers computes the replay of the log as it was read into the queue as it is by then |
| EventWriter.Sender.FlushRetry | ai-event-collector/ingest_writer.go:274-307 | the pass leaves the failed batches in order ahead of newer ones, acknowledges the accepted ones, and compacts exactly when none failed |
| EventWriter.KeptInOrder | ai-event-collector/ingest_writer.go:288-298 | each batch that failed stands behind exactly as many as failed before it |
| EventWriter.PassOneSend | ai-event-collector/ingest_writer.go:282-295 | each iteration of a pass is one send step of the transition system |
| EventWriter.PassStarts | ai-event-collector/ingest_writer.go:275-278 | a pass starts by taking the whole queue |
| EventWriter.PassEnds | ai-event-collector/ingest_writer.go:296-306 | a pass ends with its failures in order ahead of newer batches, and with the log as the atomic pass leaves it |
| EventWriter.OthersOnlyQueueBehind | ai-event-collector/ingest_writer.go:296-299 | steps of other goroutines during a pass only add behind it |
| Tsv.EscapeTSV | ai-event-collector/ingest_writer.go:574-594 | the loop and its shortcut compute the escaping |
| Tsv.EscapeRoundTrip | ai-event-collector/ingest_writer.go:574-594 | unescaping gives the field back, and an escaped field has no tab and no line end |
| Tsv.EscapeMeans | ai-event-collector/ingest_writer.go:574-594 | which four characters are escaped, and as what |
| Tsv.SplitJoin | ai-event-collector/ingest_writer.go:318-334 | splitting at a separator undoes joining parts free of it |
| Tsv.Serialize | ai-event-collector/ingest_writer.go:311-337 | the loop writes the batch format line by line |
| Tsv.PrintColumns | ai-event-collector/ingest_writer.go:318-334 | text columns are escaped and printed values go out as they are |
| Tsv.CountFlushed | ai-event-collector/ingest_writer.go:438-447 | the counter grows by the number of line ends |
| Tsv.BatchRoundTrip | ai-event-collector/ingest_writer.go:311-337 | reading a batch back gives one line per event with each of the fifteen fields in its own column, and the counted line ends are the events |
| Dedup.RunSpaced | ai-event-collector/k8s_events.go:154-171 | in every run an id is admitted again only after at least as many others as the cache holds |
| Dedup.RunForgetsNothingNew | ai-event-collector/k8s_events.go:154-171 | every non-empty id is admitted at least once, and no empty id is remembered |
| Dedup.RingNoDup | ai-event-collector/k8s_events.go:163-169 | the ring has no repeats and never exceeds its capacity |
| Dedup.SeenIff | ai-event-collector/k8s_events.go:154-171 | an id was seen exactly if one of the last admissions up to the capacity was of it, and exactly the others are admitted |
| Dedup.SeenCache.Seen | ai-event-collector/k8s_events.go:154-171 | the answer is yes exactly for the last admitted ids up to the capacity, and set and ring stay in agreement |
| Walks.ExploredExact | ai-orchestrator/kg_graph.py:549-562 | a search that finished all nodes above its limit found exactly the nodes within the limit, at their true distances |
| Walks.NodeCountSuffices | ai-orchestrator/kg_graph.py:577-593 | walks as long as there are nodes reach everything reachable |
| KgGraph.BothEnds | ai-orchestrator/kg_graph.py:538-545 | the adjacency lists hold exactly the allowed edges at each node |
| KgGraph.OutEdges | ai-orchestrator/kg_graph.py:573-576 | the adjacency lists hold exactly the edges leaving each node |
| KgGraph.Search | ai-orchestrator/kg_graph.py:546-563 | the loop lists exactly the known nodes within the limit, once each, nearer first, and collects under each id an edge at a node nearer than the limit |
| KgGraph.Neighbors | ai-orchestrator/kg_graph.py:531-563 | the same for undirected steps through allowed edge types, up to the given number of hops but at least one, with nothing for an unknown start |
| KgGraph.OneHop | ai-orchestrator/kg_graph.py:531-563 | with one hop the result is the start and the far ends of its own allowed edges, and exactly those edges |
| KgGraph.DownstreamClosure | ai-orchestrator/kg_graph.py:566-594 | the same for steps along outgoing edges |
| KgGraph.OneStepDown | ai-orchestrator/kg_graph.py:566-594 | with depth one the result is the start and the targets of its outgoing edges, and exactly those edges |
| KgGraph.ClosureGrowsAndSaturates | ai-orchestrator/kg_graph.py:566-594 | a deeper closure contains a shallower one, and from the node count on it is everything reachable downstream |
| KgGraph.NeighborSets | ai-orchestrator/kg_graph.py:611-615 | the neighbour sets hold exactly the ends joined by an edge |
| KgGraph.GoalIsNearest | ai-orchestrator/kg_graph.py:620-623 | when the goal is taken off the queue no walk to it is shorter |
| KgGraph.WalkBack | ai-orchestrator/kg_graph.py:630-636 | following the predecessors terminates and yields a walk from start to goal of the recorded length |
| KgGraph.FindPath | ai-orchestrator/kg_graph.py:616-636 | for every order of neighbours: the empty list exactly when the goal is unreachable, else a walk no other beats |
| KgGraph.ShortestPath | ai-orchestrator/kg_graph.py:597-636 | the same with its special cases: unknown ends, equal ends, and a snapshot that cannot be loaded; neighbouring nodes of the path share an edge of the snapshot |
| Dispatcher.StepKeepsValid | ai-orchestrator/investigation_dispatcher.py:69-130 | each atomic section keeps pending equal to queued plus running, each once, and the queue within its bound; the queue is never found full after the runtime accepted |
| Dispatcher.RunKeepsValid | ai-orchestrator/investigation_dispatcher.py:69-130 | the same in every interleaving of acceptances and any number of workers |
| Dispatcher.BeginMeans | ai-orchestrator/investigation_dispatcher.py:69-78 | a queued or running invocation is answered as a duplicate, an unknown one finds the queue full or waits for the runtime |
| Dispatcher.EndMeans | ai-orchestrator/investigation_dispatcher.py:81-98 | only what the runtime is ready to execute is queued; a terminal run is answered as a duplicate and an error passed on, changing nothing |
| Dispatcher.WorkerMeans | ai-orchestrator/investigation_dispatcher.py:115-130 | a worker takes the head of the queue, and what it is done with is forgotten |
| Dispatcher.RunOnlyReady | ai-orchestrator/investigation_dispatcher.py:81-117 | in every run whatever is queued or on a worker was found ready before, so no terminal run ever reaches a worker |
| Dispatcher.PendingChanges | ai-orchestrator/investigation_dispatcher.py:97-129 | an id becomes pending only by acceptance and stops being so only when its own worker is done |
| Dispatcher.PendingCount | ai-orchestrator/investigation_dispatcher.py:110-113 | the reported count is queue length plus busy workers |
| Dispatcher.QueueLedger | ai-orchestrator/investigation_dispatcher.py:90-117 | work is taken up in the order of acceptance |
| Dispatcher.InvestigationDispatcher.Begin | ai-orchestrator/investigation_dispatcher.py:69-81 | duplicates and a full queue are answered before the runtime is asked |
| Dispatcher.InvestigationDispatcher.End | ai-orchestrator/investigation_dispatcher.py:81-98 | the section after the runtime's acceptance takes its step |
| Dispatcher.InvestigationDispatcher.Take | ai-orchestrator/investigation_dispatcher.py:115-117 | a worker takes the head of the queue |
| Dispatcher.InvestigationDispatcher.Done | ai-orchestrator/investigation_dispatcher.py:124-130 | the finally block removes exactly the finished invocation |
| Lease.StateOfAnswers | ai-orchestrator/lease_aware_execution.py:146-172 | over every history of renewals the lease is lost exactly after two failures in a row, else uncertain exactly after a failure |
| Lease.LeaseContext.CheckActive | ai-orchestrator/lease_aware_execution.py:135-138 | the check passes exactly in the active state, and leaves the lease at a boundary until something other than a renewal happens |
| Lease.LeaseContext.RenewRound | ai-orchestrator/lease_aware_execution.py:146-172 | one round takes one answer, and none after a stop unless it was already waiting |
| Lease.LeaseContext.Background | ai-orchestrator/lease_aware_execution.py:140-172 | whatever the renewals answer, a lost lease stays lost and a stop stays |
| Lease.LeaseContext.Close | ai-orchestrator/lease_aware_execution.py:116-123 | closing stops the renewals |
| Outcome.Normalize | ai-orchestrator/investigation_runtime.py:29-69 | errors never become success, claims that are no status fail, failures carry a public code and the public message, nothing else carries a message, and entries are defaulted only where the key is missing |
| Outcome.TakeApart | ai-orchestrator/investigation_runtime.py:31-51 | the three shapes of an outcome yield its claim, its events and a result with the public form of the code it names |
| Outcome.ClaimMeans | ai-orchestrator/investigation_runtime.py:31-54 | which texts claim which status: seven names in any case, and nothing or the empty text for success |
| Outcome.StatusMeans | ai-orchestrator/investigation_runtime.py:53-62 | success is exactly a claimed success without an error event; a success with one and a claim that is no status fail; all others end as claimed |
| Outcome.OwnCodeMeans | ai-orchestrator/investigation_runtime.py:41-66 | which code each kind of wrong outcome gets, and that a public code that was named is kept |
| Outcome.RaisedMeans | ai-orchestrator/investigation_runtime.py:200-204 | an investigation that throws counts as failed with BRAIN_EXCEPTION |
| Outcome.MessageMeans | ai-orchestrator/error_safety.py:36-61 | the five explained codes and their messages, and one message for all others |
| Outcome.ErrorLeavesCodeIff | ai-orchestrator/investigation_runtime.py:53-62 | an error among the events leaves a public code exactly if the outcome fails or regresses or no empty code entry is in the way |
| Outcome.EmptyCodeHidesError | ai-orchestrator/investigation_runtime.py:56-64 | a partial outcome with an error event that ends without a code |
| Outcome.StableCode | ai-orchestrator/error_safety.py:47-54 | every code has the public shape, and one that has it is kept |
| Outcome.IsCodeMeans | ai-orchestrator/error_safety.py:17 | the public shape of a code |
| Runtime.SafeAfterOthers | ai-orchestrator/control_plane_client.py:173-190 | writes of other clients never make a history unsafe |
| Runtime.SafeSet | ai-orchestrator/control_plane_client.py:364-375 | a compare-and-set against a status known at its version writes only what may follow that status, whether or not its answer arrives |
| Runtime.Accept | ai-orchestrator/investigation_runtime.py:127-175 | an acceptance makes its calls in order and succeeds exactly if each is confirmed and the lease can be bound; then the run is executable and known at its version under an open lease, and otherwise a lease that was claimed is closed |
| Runtime.Plan | ai-orchestrator/investigation_runtime.py:157-163 | a created run is moved to planning before it is queued |
| Runtime.PlanAndBind | ai-orchestrator/investigation_runtime.py:157-175 | whatever fails once the lease is held closes it |
| Runtime.BeginInvestigating | ai-orchestrator/investigation_runtime.py:182-189 | a planned run is moved to investigating first, as a step cleared by a lease check |
| Runtime.Investigate | ai-orchestrator/investigation_runtime.py:190-204 | the investigation runs only under a lease whose check has passed, and what it ends with becomes what is known from then on |
| Runtime.EnterVerifying | ai-orchestrator/investigation_runtime.py:210-215 | success, partial results and regressions are committed out of verification only, entered with the outcome known and the lease checked since the investigation |
| Runtime.StoreFinalContext | ai-orchestrator/investigation_runtime.py:216-238 | a final context that cannot be stored turns any ending into a partial one with its own code and changes nothing else; storing it is a step the lease must clear |
| Runtime.Commit | ai-orchestrator/investigation_runtime.py:239-254 | what is committed ends with the normalised status, requested behind a lease check of its own |
| Runtime.CommitUnderLease | ai-orchestrator/lease_aware_execution.py:175-191 | the commit request goes out right behind a check that passed, with nothing but renewals in between |
| Runtime.TakeStep | ai-orchestrator/lease_aware_execution.py:135-138 | a step of an execution is made only if a check has passed since the outcome became known or, before that, since the start |
| Runtime.Execute | ai-orchestrator/investigation_runtime.py:177-256 | on every path, with any interference, the history stays safe and every step and commit tells the truth; done means a commit was confirmed, an error means that the latest check or call failed, the run was not to be executed or could not be summed up, and an abort that the investigation was cut off; the lease is closed |
| Runtime.Fail | ai-orchestrator/investigation_runtime.py:258-273 | the run is read and, unless it has ended or there is no answer, set to failed at the version read, so a terminal status is never replaced; the lease is closed |
| Runtime.RunWorker | ai-orchestrator/investigation_dispatcher.py:115-130 | execution followed, after an error, by failing: no terminal status is ever replaced, each success was claimed without an error event by an investigation that returned, is committed out of verification and right behind a passed lease check, and an investigation that threw is committed as failed with its own code |
| Patch.ReconcileAgreesWithPatch | ai-action-executor/main.go:1025-1083 | where an action can be built and reconciled, the comparison says yes exactly when merging the payload would change nothing, up to requested empty annotations |
| Patch.AppliedIsRecognised | ai-action-executor/main.go:1209-1267 | right after an apply the comparison says yes |
| Patch.PatchTouchesNothingElse | ai-action-executor/main.go:1025-1083 | a patch changes only what its operation names and writes only allowed annotations |
| Patch.PatchMeans | ai-action-executor/main.go:1025-1083 | what an object is like after the patch of each operation: the named count, a cordoned or uncordoned node, every requested annotation beside the old ones |
| Patch.BuildableIff | ai-action-executor/main.go:1025-1083 | exactly which actions have a patch |
| Patch.JudgedAppliedIff | ai-action-executor/main.go:1209-1267 | exactly when an action is judged to have taken effect |
| Patch.ValidTargetIff | ai-action-executor/main.go:989-1022 | nodes have no namespace, everything else one, and everything a name |
| Patch.UndecidableIff | ai-action-executor/main.go:1209-1267 | exactly which actions can be applied but not judged |
| Patch.UnreadableCountIff | ai-action-executor/main.go:1054-1067 | a scale without a readable count is sent as 0 exactly if the field is present and not null, else as 1 |
| Patch.UnreadableCountScalesToZero | ai-action-executor/main.go:1062-1067 | a count given as text, or too large for 32 bits, scales to nothing, and reconciliation cannot tell |
| Patch.EmptyAnnotationFools | ai-action-executor/main.go:1238-1243 | an unapplied patch that is reported as applied |
| Executor.LaterTransitive | ai-action-executor/main.go:348-356 | what can have happened between two moments composes |
| Executor.ApiServer.PatchObject | ai-action-executor/main.go:623-655 | a patch naming a version hits only an object of that version, even if its answer is lost |
| Executor.ApiServer.RemovePod | ai-action-executor/main.go:667-706 | deletion and eviction hit only a pod that meets the preconditions, which then is gone or ends its grace period under a new version |
| Executor.ApiServer.ListDrainPods | ai-action-executor/main.go:777-832 | the answer lists exactly the pods of the node that are no mirror pods, belong to no daemon set and have a name and namespace |
| Executor.HandleExecute | ai-action-executor/main.go:252-377 | every verdict is given exactly in its case: rejected unless admitted, read failed or drifted by what the read shows, a dry run if nothing may be executed, and otherwise the action is attempted, on the target exactly as read, and fails only if it cannot be built or a request is not confirmed |
| Executor.ReadCurrentState | ai-action-executor/main.go:409-428 | the target is read once and drifts exactly if its identity, or the approved version, is not what was approved |
| Executor.NothingStale | ai-action-executor/main.go:324-356 | every mutation of such a trace hits an object that is at that instant exactly as an earlier read of the same execution showed it, with the approved identity and version |
| Executor.IntendedMeans | ai-action-executor/main.go:609-630 | what is asked of the target, operation by operation |
| Executor.RoutableIff | ai-action-executor/main.go:609-626 | exactly which actions can be carried out, with the bounds of their parameters |
| Executor.PatchTarget | ai-action-executor/main.go:597-655 | the routed mutation hits the object as it was read, although others wrote in between |
| Executor.Cordon | ai-action-executor/main.go:749-760 | the node is cordoned only as it was read |
| Executor.EvictAll | ai-action-executor/main.go:761-766 | the listed pods are evicted in order up to the first that is not confirmed, each exactly as listed |
| Executor.DrainNode | ai-action-executor/main.go:735-768 | a drain lists the pods, cordons the node as it was read and evicts the listed pods in order, each as listed; it stops only at a request that is not confirmed, and succeeds exactly if all are |
| Executor.HandleReconcile | ai-action-executor/main.go:1104-1207 | reconciliation reads the target, and for a drain the pods, and nothing else; each verdict is given exactly when the answers call for it, and unknown is left for no answer or no judgement |
| Credential.StepKeepsValid | ai-action-executor/main.go:304-314 | each step of a handler keeps one handler in the section and its own token in the slot |
| Credential.StepMeans | ai-action-executor/main.go:304-314 | what each step does to the slot, the mutex and the requests on record |
| Credential.RunKeepsTokensApart | ai-action-executor/main.go:1132-1147 | in every interleaving each request carries the token issued for its own action, and with the mutex free the slot is empty exactly if it was at the start or some handler has filled it |
| Credential.RefusedHandlerLeavesSlot | ai-action-executor/main.go:307-313 | a refused handler that finishes with the slot still filled |
| Evidence.JoinInjective | ai-orchestrator/contracts_identity.py:122-146 | joining NUL-free fields with NUL is injective |
| Json.ScanObject | ai-orchestrator/evidence_hub.py:175 | a scanner that counts brackets outside text and skips escapes inside it reaches its end exactly with the object it is given |
| Json.NoProperSuffix | ai-orchestrator/evidence_hub.py:175 | no object's JSON text is a proper suffix of another's |
| Json.ObjectSeparates | ai-orchestrator/evidence_hub.py:175 | a summary and the JSON object behind it are determined by their joined text |
| Json.FormatMeans | ai-orchestrator/evidence_hub.py:175 | the separators and brackets of the format |
| Json.EscapeMeans | ai-orchestrator/evidence_hub.py:175 | which characters of a text are escaped |
| Evidence.CanonicalNormalizes | ai-orchestrator/contracts_identity.py:107-119 | canonical ids enter the fingerprint as they are |
| Evidence.NormalizeMeans | ai-orchestrator/contracts_identity.py:107-119 | blank ids vanish, UUIDs take their printed form, labels lose the blanks around them |
| Evidence.SameFingerprintSameFields | ai-orchestrator/evidence_hub.py:367-392 | equal fingerprints mean the same normalised ids, source, query, resource, times, summary and data, and the same fact exactly if there is a summary or the same error message |
| Evidence.CanonicalText | ai-orchestrator/contracts_identity.py:122-151 | the text the fingerprint is the hash of, field by field |
| Evidence.SameFingerprintSameOwner | ai-orchestrator/evidence_hub.py:367-398 | equal fingerprints of results with canonical ids mean the same owner, and the same content exactly if the claims agree and there is a summary or the same error message |
| Evidence.KnownRefusedIff | ai-orchestrator/evidence_hub.py:193-200 | with a known fingerprint, the result is refused as another owner's exactly if one of its ids is not canonical or one of the first result's was no UUID, and otherwise the evidence is reused unchanged |
| Evidence.StoredIdIff | ai-orchestrator/evidence_hub.py:341-354 | two ids normalised alike: the second names what was stored for the first exactly if the first was a UUID and the second is canonical |
| Evidence.RunNeverRefuses | ai-orchestrator/evidence_hub.py:144-239 | after any run of results whose ids are UUIDs in whatever spelling, a result with canonical ids is not refused as another owner's |
| Evidence.RunRefusesIff | ai-orchestrator/evidence_hub.py:144-239 | after such a run the next result is refused as another owner's exactly if its fingerprint is known and its ids are not canonical |
| Evidence.ResaveIffCanonical | ai-orchestrator/evidence_hub.py:193-200 | in any store made from tool results, a result that was kept gives the same evidence again exactly when its ids are canonical, and is refused otherwise |
| Evidence.LabelRefusedAgain | ai-orchestrator/evidence_hub.py:341-354 | a result with an id that is no UUID is kept once and refused when saved again |
| Evidence.PaddedIdKeepsOutCanonical | ai-orchestrator/contracts_identity.py:114-119 | two operations from the empty store after which a result with canonical ids is refused |
| Evidence.IndexIsScan | ai-orchestrator/evidence_hub.py:284-286 | the index finds exactly what a scan of the store finds |
| Evidence.SecondSaveReusesFirst | ai-orchestrator/evidence_hub.py:132-142 | a known fingerprint gives the first evidence back and changes nothing; a refusal means a taken id with a fingerprint not known |
| Evidence.StepKeepsConsistent | ai-orchestrator/evidence_hub.py:132-262 | an operation keeps index, contents and status order exactly when it does not write over other evidence |
| Evidence.SaveToolOverwrites | ai-orchestrator/evidence_hub.py:237-239 | two operations from the empty store after which the first evidence is gone |
| Evidence.DerivedNeverOverwrites | ai-orchestrator/contracts_identity.py:154-158 | with derived ids nothing is ever written over |
| Evidence.RunKeepsEvidence | ai-orchestrator/evidence_hub.py:132-262 | over every run with derived ids index and store agree, no content changes, no status moves back |
| Evidence.EvidenceHub.Save | ai-orchestrator/evidence_hub.py:132-142 | a known fingerprint returns the stored evidence, a taken id is refused, else it is stored and indexed |
| Evidence.SaveMeans | ai-orchestrator/evidence_hub.py:132-142 | a known fingerprint, a taken id and new evidence, each with its answer and its effect |
| Evidence.EvidenceHub.SaveFromToolResult | ai-orchestrator/evidence_hub.py:144-239 | the checks, the reuse and the new entry in the order of the code |
| Evidence.SaveToolMeans | ai-orchestrator/evidence_hub.py:144-239 | exactly when a result is refused and why, and what evidence it is kept as |
| Evidence.EvidenceHub.Transition | ai-orchestrator/evidence_hub.py:244-262 | only allowed moves change a status, and nothing but the status |
| Evidence.MoveMeans | ai-orchestrator/evidence_hub.py:244-262 | which moves are allowed: forward in the order created, validated, expired, archived |
| Evidence.EvidenceHub.FindByFingerprint | ai-orchestrator/evidence_hub.py:284-286 | the one evidence with the fingerprint, or none in the whole store |
| Evidence.EvidenceHub.CurrentFacts | ai-orchestrator/evidence_hub.py:264-275 | exactly the validated evidence of the tenant and cluster asked for |
| RateLimit.NoIntervalOverLimit | ai-orchestrator/main.py:963-990 | in every run with a clock that does not go back, any sixty-second interval has at most the limit of passed requests per client and class |
| RateLimit.RefusedExactlyAtLimit | ai-orchestrator/main.py:975-986 | a request passes exactly when the client's own recent requests of its class are below the limit |
| RateLimit.Prune | ai-orchestrator/main.py:942-949 | only a large store is swept, and exactly the idle clients go |
| RateLimit.PruneKeepsTracks | ai-orchestrator/main.py:942-949 | sweeping changes no count now or later |
| RateLimit.Limiter.Handle | ai-orchestrator/main.py:963-990 | both stores are swept, each decision is the one the whole history calls for, and exactly what passed is recorded |

## Left out

- WalLog.WriteAheadLog.Append: does not model the wrap-around of the 64-bit sequence number, which takes 2^64 appends to reach; partly written lines and records above the scanner's 16 MiB cap are not modelled either.
- WalLog.WriteAheadLog.Compact: does not model failing writes to the temporary file, a failing rename or a failing reopen, all of which the code ignores or returns from half-way; a crash after the rename is modelled.
- WalLog.WriteAheadLog.PersistAck: does not model a failing write of the acknowledgement file, which the code ignores.
- EventWriter.Sender.TryEnqueue: models one round of the wait for room; that a waiting goroutine is ever served is not claimed.
- Writer.RunAtLeastOnce: of the pass that shutdown starts beside the running one only its compaction, when it finds the queue empty, is modelled; its sends are cancelled and its batches go back to the queue. Whole runs of a writer configured without a log are not modelled.
- Tsv.Serialize: text is a sequence of valid characters; time formatting and the SHA-256 event id are values without special characters.
- KgGraph.ShortestPath: looking up the two nodes by name and loading the snapshot are parameters; the writing half of the module and its counters are left out.
- Dispatcher.RunKeepsValid: starting and stopping workers is covered only as workers taking up and finishing work; liveness is not claimed, and a worker whose failure handler raises is gone.
- Runtime.SafeSet: the control plane is assumed to compare and set on the version; replaying an answered command by its id is not modelled.
- Runtime.Accept: the frozen time window and target fields of a run are not modelled, and whether its lease can be bound to the request is a parameter.
- Runtime.Execute: whether the summary can be built is a parameter.
- Executor.HandleExecute: signatures, tokens and the HTTP layer are reduced to whether a verification key and a Kubernetes client are configured; the store of past results is left out.
- Executor.ApiServer.PatchObject: assumes that object versions come from one counter and are never reused, and that a patch naming a version is refused on any other.
- Patch.PatchTouchesNothingElse: annotation length is counted in characters.
- Json.ObjectSeparates: numbers, booleans and null are texts without quotes and brackets, values of other types have become texts, and an object's fields stand in key order.
- Evidence.EvidenceHub.SaveFromToolResult: evidence types, reliability scores, metadata and time normalisation are left out; hashing and UUID derivation are functions assumed collision-free only where a theorem says so.
- Evidence.EvidenceHub.CurrentFacts: returns a set; the order of the list is not modelled.
- RateLimit.Limiter.Handle: which paths bypass the limiter or count as heavy is a parameter; the clock is assumed not to go back.
- HTTP, TLS, SQL, Kubernetes and model calls elsewhere in the repository, statistics, query checks, report text and the frontend are not part of this model.
