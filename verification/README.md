# OriaAI: checkpoint store, agent run and supporting controls

A Dafny model of the parts of OriaAI where order, failure and concurrency matter, with proofs about every run.

**Two-layer checkpoint store.** `PostgresCheckpointer` buffers puts and drains them in chunks;
`RedisPostgresCheckpointer` writes Redis first, reads Redis first, and reconciles both layers after a crash.
`PgStore`, `Backpressure` and `CompositeStore` are state machines whose steps are the stretches of code between two
awaits; storage outcomes (applied, refused, applied but reported as failed, evicted) are nondeterministic.
`Recovery`, `RecoveryRuns` and `RecoveryPass` cover what a restart does, thread by thread, while the flusher already runs.
`PostgresCheckpointer.dfy`, `Redis.dfy` and `CompositeCheckpointer.dfy` hold the classes with their loops and in-place
updates, each method proved against the functions the state machines use. `Checkpoints` has the shared data.

**Agent run and event stream.** `AgentGraph` is the planner / tool executor / retriever / final answer graph with a real
termination measure; `EventStream` is the generator that turns its chunks into server-sent events; `SseWire` is printer,
line splitter and UI parser, ending in a statement from the generator to the UI. `QueryText` is the shared notion of
"the same question".

**Controls and smaller cores.** `CircuitBreaker`, `CostRouting` (cost table, budget guard, router), `SemanticCache`,
`PiiSpans`, `LogBatcher`, `AccessLog`, `PipelineCache`.

How the model stands for the code:

- Checkpoint ids and thread ids are natural numbers, timestamps are integer microseconds. Ids are compared as numbers,
  as UUIDs are.
- Everything the code cannot decide is a parameter or a choice: storage outcomes, clocks, error rates, model answers,
  tool outcomes, embeddings, recogniser results, scan pages. A statement for all of them is a statement about all runs.
- Money, scores and durations are real numbers.
- What is assumed of callers is stated in `PgStore.Enabled` and `CompositeStore.LayerEnabled`: fresh ids, puts of a thread
  increasing in (created_at, id), and no put to a thread, nor second delete of it, while it is being deleted. What fails
  without the order is proved beside it. A delete is two steps in PostgreSQL, with reads and flushes in between, after its
  Redis keys have gone one by one.
- `record_spend`, `route`, `check` and the breaker's records are one step each: they run on one event loop and no holder of
  their locks suspends.
- Whether the graph library keeps what `route_after_planner` writes into its state is a parameter, `Graph.routingPersists`.

Where the code differs from its comments, or from what they lead one to expect, the model follows the code:

- the cache serves at similarity equal to the threshold, its docstring says above (`semantic_cache.py:65,99`);
- the breaker opens at an error rate equal to the threshold, its docstring says above (`circuit_breaker.py:4,73`);
- a replay only buffers, so it lands even when PostgreSQL is unreadable, which the comment rules out (`composite.py:549-553`):
  `FailedPgReadReplaysIff`, `FailedPgReadHidesNewer`;
- checkpoints of one thread within 1 ms are taken for one instant, and the newer one can be lost: `LastPutIsRestoredIff`;
- on a timeout the skipped counter is recomputed and counts more than unreached threads: `TimeoutCounters`;
- after a refused Redis write reads return the older Redis checkpoint: `RefusedRedisWriteIsReadIff`;
- a question can be announced as retrieved more than once (`service.py:1632-1634` says never): `AnnouncedOnceIff` says when;
- an error counts before a cancellation in the same chunk, a comment says the reverse (`service.py:1669-1684`): `FirstEndDecides`;
- the code cites RFC 8895 for its events; section 9.2.6 of the WHATWG HTML Living Standard defines them. The UI's parser
  strips every line, restarts the id with each event and flushes an unterminated last block, which that section does not;
- a model under a provider key whose lower case is not in the table counts as infinitely dear, so the pick need not be the
  cheapest: `PickIsCheapestByPrice`;
- a recovery pass counts no thread whose reads both fail, although it has state: `UncountedIff`;
- between the two halves of a delete a read can return an older checkpoint: `DeletingRead`;
- privacy-required requests are rerouted once the budget guard is active, and those of the privacy policy also while the
  zero-retention provider's breaker is open: `PrivacyIsKeptIff`;
- the PII score, promised in [0, 1] (`pii_detector.py:116`), can exceed 1, and labels can be cut, for partly overlapping
  spans: `ScoreAtMostOneIff`, `MaskIsSpliceIff`.

## Model

| member | source | states |
|---|---|---|
| Checkpoints.LatestRow | src/llm_client/orchestration/checkpointers/postgres_checkpointer.py:57-60 | the row that the ordering `created_at DESC, checkpoint_id DESC` puts first, and nothing exactly when the thread has no row |
| Checkpoints.LatestRowMeaning | src/llm_client/orchestration/checkpointers/postgres_checkpointer.py:57-60 | every other row of the thread was created earlier, or at the same time with a smaller id |
| Checkpoints.LatestRowExists | src/llm_client/orchestration/checkpointers/postgres_checkpointer.py:57-60 | a thread with a row has a newest one: every other row of the thread is older |
| Checkpoints.UpsertRow | src/llm_client/orchestration/checkpointers/postgres_checkpointer.py:51-55 | a chunk of distinct rows overwrites exactly its own keys and leaves every other row |
| PgStore.StepKeepsInv | src/llm_client/orchestration/checkpointers/postgres_checkpointer.py:341-350 | every step between two awaits (put, peek, commit, reject, lost acknowledgement, acknowledge, and the halves of a delete, whose DELETE is applied or fails) keeps: distinct ids in put order, every put of a thread not being deleted in buffer or table, nothing else in either, the chunk in flight is the head of the buffer |
| PgStore.ReadIsLastPut | src/llm_client/orchestration/checkpointers/postgres_checkpointer.py:215-226 | in every state with the invariant an uninterrupted read returns exactly the last put of a thread that is not being deleted |
| PgStore.DeletingRead | src/llm_client/orchestration/checkpointers/postgres_checkpointer.py:341-350 | between the halves of a delete a read sees the newest row; that is stale, neither the last put nor nothing, if and only if the table holds a row of the thread and its last put is not one of them |
| PgStore.ReadDuringDeleteIsStale | src/llm_client/orchestration/checkpointers/postgres_checkpointer.py:341-350 | such a state: one put flushed, a newer one buffered, and the older comes back until the DELETE |
| PgStore.FlusherKeepsRead | src/llm_client/orchestration/checkpointers/postgres_checkpointer.py:510-550 | no step of the flusher changes what a read of any thread returns, threads being deleted included |
| PgStore.RunRefinesPlainMap | src/llm_client/orchestration/checkpointers/postgres_checkpointer.py:161-226 | along every run from the empty store reads are those of a plain per-thread map and no put is missing from both buffer and table; of a thread being deleted a read sees the newest row |
| PgStore.AgetIsLinearizable | src/llm_client/orchestration/checkpointers/postgres_checkpointer.py:215-226 | a read whose buffer half and table half are separated by an await, with anything in between, returns what the thread showed at some moment: its last put, or its newest row while it was being deleted |
| PgStore.AgetReturnsLastPut | src/llm_client/orchestration/checkpointers/postgres_checkpointer.py:215-226 | so for a thread that is not deleted meanwhile the answer was its last put at some moment |
| PgStore.DrainKeepsReads | src/llm_client/orchestration/checkpointers/postgres_checkpointer.py:510-550 | a whole flush, however each statement ends, keeps the invariant and changes no read of any thread |
| PgStore.ChunkMovesHead | src/llm_client/orchestration/checkpointers/postgres_checkpointer.py:525-550 | picking, committing and acknowledging a chunk can follow each other, and move exactly the first min(batch size, length) checkpoints from the buffer into the table |
| PgStore.DrainEmptiesBuffer | src/llm_client/orchestration/checkpointers/postgres_checkpointer.py:525-550 | if as many statements commit as there are chunks, the flush leaves an empty buffer and the table that one upsert of the whole buffer would |
| PgStore.ChunksRoundsUp | src/llm_client/orchestration/checkpointers/postgres_checkpointer.py:603-610 | the number of chunks is the buffer length over the batch size, rounded up |
| PgStore.FlushKeepsReadIff | src/llm_client/orchestration/checkpointers/postgres_checkpointer.py:673-678 | without assuming the order of puts: a complete flush keeps a thread's read if and only if the checkpoint buffered last is newer than everything else buffered or stored for the thread |
| PgStore.StoringAgainInFlightLosesTheUpdate | src/llm_client/orchestration/checkpointers/postgres_checkpointer.py:543-546 | why ids must not be reused during a flush: the second version is dropped from the buffer unsaved |
| PgStore.DeletingInFlightResurrects | src/llm_client/orchestration/checkpointers/postgres_checkpointer.py:341-350 | why a delete must not overlap a flush: the deleted checkpoint comes back |
| Backpressure.GateStepKeepsBound | src/llm_client/orchestration/checkpointers/postgres_checkpointer.py:183-203 | every step of every waiting or arriving put and of the flusher keeps the buffer bound and the panic rule |
| Backpressure.AdmissionIff | src/llm_client/orchestration/checkpointers/postgres_checkpointer.py:636-671 | a put is stored at once below capacity, otherwise at the first wake-up that finds room or when its polls of a tenth of a second add up to the timeout; every other wake-up only changes its count |
| Backpressure.BufferBound | src/llm_client/orchestration/checkpointers/postgres_checkpointer.py:636-671 | at every suspension point of any number of concurrent puts the buffer holds at most its capacity plus the puts that gave up waiting, and a buffer at capacity means panic mode |
| PostgresCheckpointers.PostgresCheckpointer.Aput | src/llm_client/orchestration/checkpointers/postgres_checkpointer.py:161-213 | the put is stored under its id at its place or at the end, every other buffered checkpoint stays, panic mode is entered exactly at capacity, and an invalid id changes nothing |
| PostgresCheckpointers.PostgresCheckpointer.ApplyBackpressure | src/llm_client/orchestration/checkpointers/postgres_checkpointer.py:636-671 | the polling loop decides as `Await` does, wake-up by wake-up |
| PostgresCheckpointers.AwaitMeaning | src/llm_client/orchestration/checkpointers/postgres_checkpointer.py:644-671 | a put is admitted at the first wake-up that finds room and never at capacity, and gives up exactly when the polls that timed out in a row add up to the timeout |
| PostgresCheckpointers.PostgresCheckpointer.PeekBatch | src/llm_client/orchestration/checkpointers/postgres_checkpointer.py:603-610 | the loop returns exactly the first min(batch size, length) checkpoints |
| PostgresCheckpointers.PostgresCheckpointer.FindLatestBuffered | src/llm_client/orchestration/checkpointers/postgres_checkpointer.py:673-678 | the backward loop finds the thread's checkpoint that was inserted last |
| PostgresCheckpointers.PostgresCheckpointer.Aget | src/llm_client/orchestration/checkpointers/postgres_checkpointer.py:215-226 | buffer first, then the table; it fails only when the SELECT is needed and fails |
| PostgresCheckpointers.PostgresCheckpointer.AdeleteThread | src/llm_client/orchestration/checkpointers/postgres_checkpointer.py:341-350 | the buffer loses exactly the thread, and so does the table if the DELETE was applied, reported or not: then it reads as nothing, otherwise its newest row |
| PostgresCheckpointers.PostgresCheckpointer.Flush | src/llm_client/orchestration/checkpointers/postgres_checkpointer.py:510-597 | the loop drains as `Drain` says; a failure leaves panic mode, failure count and interval alone, a success ends panic mode and adapts the interval |
| RedisLayer.Dedupe | src/llm_client/orchestration/checkpointers/composite.py:498-499 | no repetitions, and the same members |
| RedisLayer.DedupeKeepsOrder | src/llm_client/orchestration/checkpointers/composite.py:498-499 | members stand in the order of their first occurrences |
| RedisLayer.RedisCheckpointer.Aput | src/llm_client/orchestration/checkpointers/redis_checkpointer.py:60-117 | entry before pointer; after an acknowledged put the thread reads that checkpoint, and if the entry was not applied nothing has changed |
| RedisLayer.RedisCheckpointer.AgetTuple | src/llm_client/orchestration/checkpointers/redis_checkpointer.py:160-203 | follows the pointer; a missing pointer or entry reads as nothing |
| RedisLayer.RedisCheckpointer.AdeleteThread | src/llm_client/orchestration/checkpointers/redis_checkpointer.py:308-326 | key by key, the pointer last, up to the first failure, which may have been applied: the thread reads as nothing if and only if it did already, or its pointer or the entry it names is among the keys gone; other threads read as before |
| RedisLayer.RedisCheckpointer.ListAllThreadIds | src/llm_client/orchestration/checkpointers/redis_checkpointer.py:328-364 | the scan's threads without repetition in order of first occurrence, for any paging; all of Redis' threads if the scan saw them all |
| CompositeStore.LayerStepKeepsInv | src/llm_client/orchestration/checkpointers/composite.py:77-162 | every stage of a put (Redis entry, pointer, PostgreSQL buffer), every eviction, flush step and half of a delete keeps: entries are real puts, and a surviving pointer names the last put or the put under way |
| CompositeStore.QuietReadIsLastPut | src/llm_client/orchestration/checkpointers/composite.py:164-199 | with no put and no delete of the thread under way a read returns exactly the last put, or nothing after a delete |
| CompositeStore.DeletingCompositeRead | src/llm_client/orchestration/checkpointers/composite.py:340-357 | while PostgreSQL is deleting the thread a composite read sees its newest row, with the same condition for a stale one |
| CompositeStore.RunReadsLastPut | src/llm_client/orchestration/checkpointers/composite.py:164-199 | the same along every run, whatever Redis keys are evicted, whether Redis answers, however far flushing has got |
| CompositeStore.PutGoesThrough | src/llm_client/orchestration/checkpointers/composite.py:77-162 | a put with a fresh id can take all its steps, and afterwards Redis answers with it and every read returns it, with or without Redis; other threads' Redis answers stay |
| CompositeStore.DeleteGoesThrough | src/llm_client/orchestration/checkpointers/composite.py:340-357 | a delete can take all its steps, and afterwards every read of the thread finds nothing |
| CompositeStore.CompositeAgetIsLinearizable | src/llm_client/orchestration/checkpointers/composite.py:164-199 | pointer, entry, buffer and table read at four different moments: the answer was visible (last put, put under way, or newest row during a delete) at one moment in between |
| CompositeStore.RefusedRedisWriteIsReadIff | src/llm_client/orchestration/checkpointers/composite.py:98-134 | a put that Redis refuses but PostgreSQL buffers is what the next read returns if and only if the pointer was written after all, or Redis could not answer for the thread |
| CompositeStore.StaleReadAfterRefusedWrite | src/llm_client/orchestration/checkpointers/composite.py:164-199 | the concrete stale read: the older checkpoint in Redis hides the newer one in PostgreSQL |
| CompositeCheckpointers.RedisPostgresCheckpointer.Aput | src/llm_client/orchestration/checkpointers/composite.py:77-162 | fails only if both layers fail; both new states, and an acknowledged Redis write is what the next read returns |
| CompositeCheckpointers.RedisPostgresCheckpointer.Aget | src/llm_client/orchestration/checkpointers/composite.py:164-199 | the composite read; with the SELECT failing, what Redis or the buffer can still answer |
| CompositeCheckpointers.RedisPostgresCheckpointer.AdeleteThread | src/llm_client/orchestration/checkpointers/composite.py:340-357 | with both failures swallowed: the thread reads as nothing if and only if Redis lost its pointer or the entry it names (or does not answer), and the DELETE was applied, reported or not, or there was no row |
| CompositeCheckpointers.RedisPostgresCheckpointer.ValidateRecoveredThread | src/llm_client/orchestration/checkpointers/composite.py:669-688 | true exactly when the thread reads back, through both layers, as something well formed |
| CompositeCheckpointers.RedisPostgresCheckpointer.ReplayThread | src/llm_client/orchestration/checkpointers/composite.py:549-580 | an invalid delta is flagged and touches nothing; a valid one is put into the buffer, counted, and counted as corrupted too if it does not read back; `Recovery.VisitInFull` says what valid means |
| CompositeCheckpointers.RedisPostgresCheckpointer.ReplayToPostgres | src/llm_client/orchestration/checkpointers/composite.py:622-649 | the delta becomes an ordinary put, unless something fails |
| CompositeCheckpointers.RedisPostgresCheckpointer.RecoverThread | src/llm_client/orchestration/checkpointers/composite.py:501-620 | the branches over both reads do to both layers and to the counters what the recovery functions say, under any combination of faults |
| CompositeCheckpointers.RedisPostgresCheckpointer.Recover | src/llm_client/orchestration/checkpointers/composite.py:378-470 | the loop with its deadline check is the pass whose counters and layers the lemmas are about |
| Recovery.OnlyValidIsReplayed | src/llm_client/orchestration/checkpointers/composite.py:651-667 | whatever fails, what a visit adds to the buffer is the Redis checkpoint of its thread, and it has an id, channel values that are a mapping or a list, and channel versions that are a mapping |
| Recovery.VisitInFull | src/llm_client/orchestration/checkpointers/composite.py:503-613 | under any faults: a Redis checkpoint missing in PostgreSQL or newer by more than 1000 microseconds is buffered if well formed and flagged if not; different ones not further apart are rewritten from PostgreSQL; otherwise nothing changes; with all five counters |
| Recovery.ReplayedIff | src/llm_client/orchestration/checkpointers/composite.py:664-667 | such a Redis checkpoint reads durably after an error-free visit if and only if it is well formed; otherwise both layers stay and one corrupted state is counted |
| Recovery.FlaggedThreadIsUntouched | src/llm_client/orchestration/checkpointers/composite.py:548-584 | a thread flagged at the source keeps both layers; so does one whose replay is refused; rows are never touched, Redis only by a conflict |
| Recovery.ReplayIsFresh | src/llm_client/orchestration/checkpointers/composite.py:549-571 | a replayed delta belongs to its thread, is not buffered yet, and is newer than every row of the thread |
| Recovery.SettleThread | src/llm_client/orchestration/checkpointers/composite.py:501-620 | one error-free thread reads as decided, needs nothing further, and leaves every other thread as it was in both layers |
| RecoveryRuns.ChunkKeepsReads | src/llm_client/orchestration/checkpointers/postgres_checkpointer.py:525-550 | a chunk flushed during or after recovery, acknowledged or not, changes no durable read |
| RecoveryRuns.ChunksKeepDecision | src/llm_client/orchestration/checkpointers/composite.py:513-562 | chunks flushed between the reads of a thread and its replay change neither the reads nor the decision, so a thread can be taken as one step |
| RecoveryRuns.RunSettles | src/llm_client/orchestration/checkpointers/composite.py:378-470 | in every state of every recovery run what a thread settles on is unchanged, and a visited thread stays settled and quiet |
| RecoveryRuns.RecoveryOutcome | src/llm_client/orchestration/checkpointers/composite.py:548-584 | in any order, with chunks flushed in between: a visited thread reads durably as Redis had it if PostgreSQL had nothing or something older beyond the slack and the Redis copy is well formed, and otherwise as PostgreSQL had it |
| RecoveryRuns.SecondPassIsIdle | src/llm_client/orchestration/checkpointers/composite.py:540-613 | once every thread known to Redis has been visited, a further visit changes neither layer, replays nothing and finds no conflict, after conflicts too |
| RecoveryRuns.CrashStartsUp | src/llm_client/orchestration/checkpointers/composite.py:378-391 | a crash at any point of any run, with any loss in Redis, leaves a state from which the recovery results hold |
| RecoveryRuns.RecoveryRestoresSurvivor | src/llm_client/orchestration/checkpointers/composite.py:378-470 | a crash at any moment, even inside a put: after recovery the thread reads durably what survived in Redis, and that is its last put or the interrupted one |
| RecoveryRuns.RecoveryRestoresLastPut | src/llm_client/orchestration/checkpointers/composite.py:378-470 | a last put that survives in Redis, is well formed and is beyond the slack is the durable read after recovery |
| RecoveryRuns.LastPutIsRestoredIff | src/llm_client/orchestration/checkpointers/composite.py:761-778 | exactly when the slack costs the last put: it is restored if and only if the table's newest row is missing, is that put, or is older by more than the slack |
| RecoveryRuns.LastPutLostWithinSlack | src/llm_client/orchestration/checkpointers/composite.py:586-613 | within the 1 ms slack the newer put is taken for a conflict and lost from both layers |
| RecoveryRuns.FailedPgReadReplaysIff | src/llm_client/orchestration/checkpointers/composite.py:549-562 | with PostgreSQL unreadable the delta is replayed and counted all the same, and the outcome is right if and only if PostgreSQL had nothing, the same, or something older beyond the slack |
| RecoveryRuns.FailedPgReadHidesNewer | src/llm_client/orchestration/checkpointers/composite.py:549-562 | an instance with the wrong outcome: the older Redis checkpoint is replayed over a newer row and read until it is flushed |
| RecoveryPass.UncountedIff | src/llm_client/orchestration/checkpointers/composite.py:517-546 | whatever fails, a thread raises no counter if and only if Redis cannot answer (unreachable, failing, or nothing there) and PostgreSQL cannot (no row, or the SELECT fails with nothing buffered) |
| RecoveryPass.CountersCoverThreads | src/llm_client/orchestration/checkpointers/composite.py:403-470 | in a pass that does not time out, under any faults, the five counters sum to the threads that had state when visited, less those neither layer could be read for, plus double counts, of which there are at most as many as replays |
| RecoveryPass.BothReadsFail | src/llm_client/orchestration/checkpointers/composite.py:517-546 | a thread that has state, is not buffered and whose reads both fail shows in no counter |
| RecoveryPass.UncountedThread | src/llm_client/orchestration/checkpointers/composite.py:517-546 | such an input |
| RecoveryPass.TimeoutCounters | src/llm_client/orchestration/checkpointers/composite.py:426-441 | what a pass that times out before thread k reports as skipped: threads not reached, plus visited ones without state or unreadable, plus refused replays, minus double counts |
| RecoveryPass.ReplayReadsBack | src/llm_client/orchestration/checkpointers/composite.py:669-688 | from the state after a crash a replayed thread always reads back well formed, whichever accesses fail |
| RecoveryPass.OthersUnchanged | src/llm_client/orchestration/checkpointers/composite.py:501-620 | reconciling one thread, whatever fails, concerns no other thread in either layer |
| RecoveryPass.CountersAreExact | src/llm_client/orchestration/checkpointers/composite.py:403-470 | from the state after a crash, under any faults, a pass over distinct threads counts exactly once every thread that has state and can be read, and no other |
| RecoveryPass.CountersMean | src/llm_client/orchestration/checkpointers/composite.py:540-613 | the five counters of an error-free thread, case by case, in terms of the two checkpoints |
| RecoveryPass.CleanPassCounts | src/llm_client/orchestration/checkpointers/composite.py:403-470 | an error-free pass over distinct threads: the counters sum to the threads that have state in some layer |
| RecoveryPass.PassSettles | src/llm_client/orchestration/checkpointers/composite.py:403-470 | what an error-free pass leaves: each thread of the list reads as Redis had it if that was well formed and missing or older by more than 1000 microseconds in PostgreSQL, and otherwise as PostgreSQL had it |
| RecoveryPass.CollectRecoveryThreads | src/llm_client/orchestration/checkpointers/composite.py:472-499 | PostgreSQL's threads then Redis', without repetition, exactly the union of the lists that could be read |
| QueryText.Words | src/llm_client/agent/graph.py:58-68 | the words are non-empty and free of whitespace; there are none exactly in blank text |
| QueryText.WordsOfJoin | src/llm_client/agent/graph.py:58-68 | splitting undoes joining |
| QueryText.SameQuestionIff | src/llm_client/agent/graph.py:58-68 | two questions normalise alike if and only if their words agree up to case |
| QueryText.CaseDoesNotMatter | src/llm_client/agent/graph.py:58-68 | texts whose characters fold alike, with whitespace in the same places, are the same question |
| QueryText.BlankIff | src/llm_client/agent/graph.py:58-68 | only blank text normalises to nothing |
| AgentGraph.RagQueryAnswered | src/llm_client/agent/graph.py:378-413 | the two loops and the map decide whether some chunk-carrying result answers a recorded call of the same question |
| AgentGraph.QueryAnsweredIff | src/llm_client/agent/graph.py:378-413 | with distinct call ids: the question is not blank, and a rag_query call for it has come back with chunks |
| AgentGraph.ResultsMatchCalls | src/llm_client/agent/graph.py:201-256 | one message per call, in order, an error for an unknown or failing tool only; none at all exactly if a known tool is cancelled |
| AgentGraph.ExecuteTools | src/llm_client/agent/graph.py:228-256 | the dispatch loop answers exactly the calls it was given, id by id |
| AgentGraph.RunWithinBudget | src/llm_client/agent/graph.py:551-624 | from any node and iteration the number of node executions is bounded by what is left of the iterations |
| AgentGraph.RunsAreShort | src/llm_client/agent/graph.py:551-624 | every run from iteration 0 ends after at most max(1, 2 max_iterations - 1) node executions |
| AgentGraph.BoundIsReached | src/llm_client/agent/graph.py:551-624 | the bound is tight: a model that always calls a working tool reaches it and is stopped by the limit |
| AgentGraph.RetrieverIsLast | src/llm_client/agent/graph.py:586-624 | after rag_retriever only final_answer runs |
| AgentGraph.RetrieverRunsOnce | src/llm_client/agent/graph.py:586-624 | rag_retriever runs at most once, with no planner after it |
| AgentGraph.RetrieverIsNeeded | src/llm_client/agent/graph.py:585-602 | it runs only when the last user text asks for retrieval and no rag_query call has answered it |
| AgentGraph.PlannerLeadsTo | src/llm_client/agent/graph.py:545-604 | after every planner execution that routing does not end: calls go to the tools, and otherwise the retriever runs if and only if the graph has one, the user's last message is text with a trigger word, and no rag_query call has answered it |
| AgentGraph.ToolsLeadTo | src/llm_client/agent/graph.py:201-256 | every tool execution appends one result per call and returns to the planner, unless a known tool is cancelled |
| AgentGraph.FinishedDocs | src/llm_client/agent/graph.py:259-307 | a finished run has the documents of the retriever if it ran, and otherwise those it started with |
| AgentGraph.RaisingEndsTheRun | src/llm_client/agent/graph.py:171-178 | a node that raises ends the run and leaves the state as it was |
| AgentGraph.ExecBalances | src/llm_client/agent/graph.py:165-256 | every node keeps results and calls balanced, up to the calls of the last message |
| AgentGraph.PlannerSeesEveryCallAnswered | src/llm_client/agent/graph.py:227-256 | at each planner entry of every run every earlier call has exactly one tool message with its id |
| AgentGraph.UnansweredAtTheEndIff | src/llm_client/agent/graph.py:551-604 | however a run ends, calls stay unanswered if and only if its last message makes calls |
| AgentGraph.ExitMeaning | src/llm_client/agent/graph.py:551-604 | what each exit says of the final state; final_answer is the last message exactly when the final node ended the run, or the cycle monitor did and what routing writes persists |
| AgentGraph.ExitCause | src/llm_client/agent/graph.py:551-576 | cancellation is looked at before the cycle monitor, and both before the limit: which choice of the last node ended the run |
| AgentGraph.OneIterationNeverAnswers | src/llm_client/agent/graph.py:569-576 | with at most one iteration to spend no run reaches final_answer |
| EventStream.OneTerminalEvent | src/llm_client/agent/service.py:1642-1684 | exactly one cancelled, error or done event, as the last, if the queue holds an item that ends the stream, and none otherwise |
| EventStream.FirstEndDecides | src/llm_client/agent/service.py:1650-1684 | the first ending item decides which, an error before a cancellation of the same chunk, and nothing behind it is looked at |
| EventStream.OneMetadataEvent | src/llm_client/agent/service.py:1658-1667 | at most one metadata event, for any number of metadata chunks |
| EventStream.MetadataIff | src/llm_client/agent/service.py:1660-1668 | there is one exactly if a metadata chunk comes before the end |
| EventStream.NothingSaidIsLost | src/llm_client/agent/service.py:1687-1744 | over every queue: heartbeats, model texts, tool calls with an id, artifacts, tool results and their documents are streamed once each and in order up to the end, with their ids, names (a result without one is named after its call) and queries; the retriever's documents and the call that stands for it are apart |
| EventStream.NodeDocsComeFirst | src/llm_client/agent/service.py:1746-1780 | node-driven documents follow a tool_call with their id; unless the question is blank nothing was announced for it before, by the node or for a tool call |
| EventStream.NodeDocsOnceIff | src/llm_client/agent/service.py:1746-1780 | node-driven documents appear at most once for every queue if and only if the question is not blank |
| EventStream.RetrieverStandsInOnce | src/llm_client/agent/service.py:1759-1781 | at most one synthetic tool call, with the user's message, right before the first documents announced under its id |
| EventStream.StreamUses | src/llm_client/agent/service.py:1687-1780 | for every question and queue, exactly which documents are announced under which ids: every tool result for it, and the node's only if nothing was announced before, under the id of the last call that asked the question |
| EventStream.AnnouncedOnceIff | src/llm_client/agent/service.py:1687-1780 | every queue announces a non-blank question at most once if and only if no tool result with chunks for it comes, before the queue ends, after another one or after documents of the node for it |
| EventStream.ToolDocsRepeat | src/llm_client/agent/service.py:1706-1714 | an instance: two tool calls with one question announce it twice |
| EventStream.MatchingCallIsLast | src/llm_client/agent/service.py:1593-1606 | the id reused is that of the latest call that asked the question |
| EventStream.FindRagCallId | src/llm_client/agent/service.py:1593-1606 | the backward loop over the ordered dict finds it |
| EventStream.DictPut | src/llm_client/agent/service.py:1736 | a present key keeps its position and gets the new value, other keys keep theirs |
| EventStream.HandleMessages | src/llm_client/agent/service.py:1687-1744 | the loop over messages yields what the stream function says for them |
| EventStream.HandleDocs | src/llm_client/agent/service.py:1746-1780 | the loop over document lists likewise |
| EventStream.Generate | src/llm_client/agent/service.py:1609-1780 | the generator's loop over the queue yields exactly the specified stream; an unknown session gets one error |
| SseWire.IterSseEvents | src/llm_client/ui/chat.py:212-241 | the parsing loop computes the specified events |
| SseWire.ParsesBlock | src/llm_client/ui/chat.py:212-241 | a block of lines arrives as one event with its name, its id and its data lines joined by line feeds |
| SseWire.ParsesBareBlock | src/llm_client/ui/chat.py:212-241 | without a name it is a message; a block cut off by the end of the stream arrives too |
| SseWire.PrintedField | src/llm_client/ui/chat.py:228-239 | one leading space and the trailing whitespace of a value are lost; fields other than event, data and id bring nothing |
| SseWire.IgnoredLine | src/llm_client/ui/chat.py:228-232 | comments and lines without a colon change nothing |
| SseWire.IndentedLine | src/llm_client/ui/chat.py:222 | whitespace in front of a line does not count |
| SseWire.PrintedThenParsed | src/llm_client/agent/service.py:103-113 | any list of single-line events with heartbeats anywhere between them arrives in order, heartbeats dropped, trailing whitespace lost |
| SseWire.RoundTripIff | src/llm_client/ui/chat.py:212-241 | so the round trip of single-line events holds if and only if no name and no payload ends in whitespace |
| SseWire.OneEventRoundTripsIff | src/llm_client/ui/chat.py:212-241 | for arbitrary text: one event comes back as sent if and only if neither part has a line break or ends in whitespace |
| SseWire.NamesAreSingleLines | src/llm_client/ui/chat.py:224-241 | no parsed event name contains a line break, whatever was sent |
| SseWire.FirstEventBound | src/llm_client/ui/chat.py:224-241 | the data of the next event is what was collected, or shorter than the lines it came from |
| SseWire.UiSeesTheStream | src/llm_client/ui/chat.py:100-150 | with payloads encoded on one line the UI gets exactly the events the generator yields, in order, without heartbeats |
| SseWire.UiKnowsEveryEvent | src/llm_client/ui/chat.py:135-159 | each event arrives under the name by which the UI tells the nine kinds apart, with its payload and without an id |
| SseWire.UiSeesOneTerminalEvent | src/llm_client/ui/chat.py:100-150 | and so sees exactly one terminal event, last |
| CircuitBreakers.CircuitBreaker.CheckProvider | src/llm_client/agent/circuit_breaker.py:51-101 | the new statuses, the returned one, and every other provider as before |
| CircuitBreakers.CircuitBreaker.RecordSuccess | src/llm_client/agent/circuit_breaker.py:103-108 | a success counts only on trial |
| CircuitBreakers.CircuitBreaker.RecordFailure | src/llm_client/agent/circuit_breaker.py:110-122 | a failure resets the count, and on trial reopens |
| CircuitBreakers.StepKeepsInv | src/llm_client/agent/circuit_breaker.py:51-122 | every call keeps: since when a provider is open or on trial, and its count equal to the successes reported on this trial |
| CircuitBreakers.CounterIsZeroOutsideTrial | src/llm_client/agent/circuit_breaker.py:103-122 | the success counter is zero outside HALF_OPEN |
| CircuitBreakers.OpensIff | src/llm_client/agent/circuit_breaker.py:70-81 | in every run a closed or unknown breaker opens if and only if the call is its check with an error rate at or above the threshold |
| CircuitBreakers.GoesHalfOpenIff | src/llm_client/agent/circuit_breaker.py:82-88 | an open one goes half-open if and only if the call is its check more than 60 s after the call that opened it |
| CircuitBreakers.TrialEndsIff | src/llm_client/agent/circuit_breaker.py:89-120 | a half-open one closes if and only if the call is its check with at least 3 successes reported on this trial, and opens if and only if the call is its failure |
| CircuitBreakers.ClosedAgainAfterTrial | src/llm_client/agent/circuit_breaker.py:43-101 | a provider that was open and is closed later opened, went half-open more than 60 s after that, and had at least three successes and no failure since |
| CircuitBreakers.ProvidersAreIndependent | src/llm_client/agent/circuit_breaker.py:47-122 | leaving out all calls of other providers changes nothing for a provider |
| CostRouting.Cheapest | src/llm_client/agent/model_cost_table.py:84-88 | a candidate than which no candidate is cheaper |
| CostRouting.ListedIff | src/llm_client/agent/model_cost_table.py:69-73 | exactly the models of the table are listed |
| CostRouting.CheapestModelIsCheapest | src/llm_client/agent/model_cost_table.py:75-88 | with lower-case provider keys the model picked has the lowest average cost, and there is none exactly in an empty table |
| CostRouting.PricedIff | src/llm_client/agent/model_cost_table.py:58-67 | whatever the case of its key, a model is priced at c exactly when the lower-case key lists it at c |
| CostRouting.PickIsFirstLeast | src/llm_client/agent/model_cost_table.py:75-88 | what is picked for every table with models, whatever its keys: the one model that comes first among those with the least looked-up cost, not found counting as the most |
| CostRouting.PickIsCheapestByPrice | src/llm_client/agent/model_cost_table.py:75-88 | when models are priced at their own cost or not at all: if and only if some priced model costs no more than every unpriced one, or none is priced and the first listed costs least |
| CostRouting.DistinctLowerPricesOwn | src/llm_client/agent/model_cost_table.py:58-67 | if no two keys have the same lower case that is so, and the priced models are those under lower-case keys |
| CostRouting.DearerModelPicked | src/llm_client/agent/model_cost_table.py:75-88 | an instance in which the dearer model is picked |
| CostRouting.TriggersAtCrossing | src/llm_client/agent/cost_guard.py:34-53 | with a budget, the guard reports exactly the spend that carries the total over the threshold |
| CostRouting.TriggersOnce | src/llm_client/agent/cost_guard.py:34-80 | at most once between two resets |
| CostRouting.GuardActiveIff | src/llm_client/agent/router.py:87-94 | the router is in cheapest mode if and only if the guard has triggered since the last reset (or the threshold needs no spend) |
| CostRouting.RoutesAreCheapestAfterTrigger | src/llm_client/agent/router.py:93-116 | from the trigger until the reset every route, whatever the policy, picks a model of minimal cost |
| CostRouting.ActiveGuardRoutes | src/llm_client/agent/router.py:93-116 | with the guard active a model of minimal cost answers, or openai/gpt-4o-mini for an empty table, whatever the policy, the flag and the breaker |
| CostRouting.PolicyRoutes | src/llm_client/agent/router.py:129-145 | otherwise, breaker not open: privacy goes to custom-openai/default, latency to openai/gpt-4o-mini, quality to openai/gpt-4o, cost to a model of minimal cost or the default |
| CostRouting.OpenBreakerRoutes | src/llm_client/agent/router.py:147-156 | breaker open: openai falls back to anthropic/claude-3-haiku, anthropic and custom-openai to openai/gpt-4o-mini, others stay |
| CostRouting.PrivacyIsKeptIff | src/llm_client/agent/router.py:93-127 | a request that requires privacy, by flag or by policy, goes to custom-openai/default if and only if the guard is inactive and, when only the policy asks, the breaker is not open, or the cheapest model is that one |
| CostRouting.LLMRouter.Route | src/llm_client/agent/router.py:76-170 | the decision for every policy, that only policy routing asks (and so advances) the breaker of the primary provider, and that it leaves that provider exactly when its breaker is open and it has a fallback |
| CostRouting.CostGuard.RecordSpend | src/llm_client/agent/cost_guard.py:34-53 | adds the cost and triggers exactly at the crossing; without a budget it never triggers, and divides by zero if the threshold is not positive |
| SemanticCache.BestIsMaximum | src/llm_client/rag/semantic_cache.py:69-98 | the scan's best score is the maximum positive score of the embeddings it saw, 0 if none, attained by its key |
| SemanticCache.PagingDoesNotMatter | src/llm_client/rag/semantic_cache.py:73-98 | any two pagings of the same keys, with empty pages and repeats, give the same best score |
| SemanticCache.SemanticAnswerCache.FindBest | src/llm_client/rag/semantic_cache.py:69-98 | the two nested loops compute that maximum |
| SemanticCache.SemanticAnswerCache.Get | src/llm_client/rag/semantic_cache.py:63-131 | what is served is a stored, fresh answer whose question is at least as similar as the threshold |
| SemanticCache.SemanticAnswerCache.PutAnswer | src/llm_client/rag/semantic_cache.py:133-173 | an answer that references no document is not stored; any other replaces its entry, fresh |
| SemanticCache.SemanticAnswerCache.MarkStale | src/llm_client/rag/semantic_cache.py:175-203 | exactly the scanned answers that reference the document become stale, all others stay as they are; the count is at least their number |
| SemanticCache.CountIsExactIff | src/llm_client/rag/semantic_cache.py:190-203 | the count is the number of affected answers if and only if the scan repeats none of them |
| SemanticCache.StaleIffMarkedSince | src/llm_client/rag/semantic_cache.py:133-203 | in every run a stored answer is that of the last put under its key, and stale if and only if one of its documents was marked since |
| SemanticCache.ServedIsFresh | src/llm_client/rag/semantic_cache.py:63-131 | so no run serves an answer that references a document marked stale since its entry's last put |
| SemanticCache.HitIff | src/llm_client/rag/semantic_cache.py:100-117 | for any scan, threshold and similarities: a hit if and only if the first best match scanned scores above 0 and at least the threshold, and its answer is there and fresh |
| SemanticCache.PutIsServed | src/llm_client/rag/semantic_cache.py:133-173 | what a put stores the next get of the same question serves, if the question matches itself best, above 0 and at least at the threshold |
| SemanticCache.StaleBestHidesFresh | src/llm_client/rag/semantic_cache.py:100-117 | a stale best match makes a miss although a fresh one would do |
| PiiSpans.SortedIsPermutation | src/llm_client/security/pii_detector.py:149 | sorting loses and adds nothing |
| PiiSpans.KeptIncreases | src/llm_client/security/pii_detector.py:146-155 | starts and ends of the kept spans strictly increase, they are spans of the input, and every input span lies in a kept one |
| PiiSpans.KeepsFirstReported | src/llm_client/security/pii_detector.py:146-155 | of several spans with one extent the first reported is the one kept |
| PiiSpans.OfTypesAppend | src/llm_client/security/pii_detector.py:121-127 | only spans of known types are looked at, in the order reported |
| PiiSpans.Dedupe | src/llm_client/security/pii_detector.py:146-155 | the same for the loop |
| PiiSpans.LaminarIsSeparate | src/llm_client/security/pii_detector.py:146-155 | if any two spans are nested or disjoint the kept ones are disjoint |
| PiiSpans.CharsAreCoveredAndOverlap | src/llm_client/security/pii_detector.py:128-130 | the counted characters are the covered positions plus the overlaps of neighbouring kept spans, which are 0 if and only if the kept spans are disjoint |
| PiiSpans.ScoreAtMostOneIff | src/llm_client/security/pii_detector.py:115-131 | for arbitrary spans in the text the score is covered positions plus overlaps over the length, never negative, and at most 1 if and only if the overlaps are no longer than the uncovered text |
| PiiSpans.CountsOnceIff | src/llm_client/security/pii_detector.py:128-130 | so every covered position is counted once if and only if the kept spans are disjoint, which is stronger than a score within 1 |
| PiiSpans.ScoreIsShare | src/llm_client/security/pii_detector.py:128-130 | for nested or disjoint spans the score is the covered share of the text and lies in [0, 1] |
| PiiSpans.OverlapScoresTooHigh | src/llm_client/security/pii_detector.py:128-130 | two instances of partly overlapping spans: one scores 1.5, the other 0.4 |
| PiiSpans.Detect | src/llm_client/security/pii_detector.py:115-131 | disabled or empty: zero; else the deduplicated spans of known types and their score, with the same condition for staying in [0, 1] |
| PiiSpans.MaskIsSpliceIff | src/llm_client/security/pii_detector.py:133-144 | masking keeps every label whole and all text outside the spans if and only if the kept spans are disjoint; it is never longer than that |
| PiiSpans.MaskAgainstSplice | src/llm_client/security/pii_detector.py:133-144 | for overlapping spans it is strictly shorter |
| PiiSpans.ReferenceLength | src/llm_client/security/pii_detector.py:133-144 | what it is compared with holds exactly the labels and the uncovered text |
| PiiSpans.OneSpanMasked | src/llm_client/security/pii_detector.py:133-144 | a single span leaves its bracketed label in its place and the text around it |
| PiiSpans.Mask | src/llm_client/security/pii_detector.py:133-144 | disabled or empty: the text; else the loop from the last detected span to the first, which equals left-to-right splicing if and only if the kept spans are disjoint |
| PiiSpans.OverlapCutsLabels | src/llm_client/security/pii_detector.py:133-144 | an instance: the first replacement cuts into the second label |
| LogBatcher.NothingIsLost | src/llm_client/observability/operational_writer.py:124-172 | along every run, whatever sinks fail and however flushes overlap, lines written equal lines delivered, in flight and buffered, as multisets |
| LogBatcher.SingleFlushKeepsOrder | src/llm_client/observability/operational_writer.py:160-172 | when flushes never overlap, that concatenation is the order of writing |
| LogBatcher.OrderKeptIff | src/llm_client/observability/operational_writer.py:160-172 | for distinct lines a step keeps the order if and only if it delivers the oldest batch or puts back the newest |
| LogBatcher.OperationalStreamWriter.WriteLine | src/llm_client/observability/operational_writer.py:124-133 | the line is delivered or buffered behind all others, and the batch size decides when |
| LogBatcher.OperationalStreamWriter.FlushBuffer | src/llm_client/observability/operational_writer.py:160-172 | a refused batch is back in front, an accepted one is delivered, nothing else changes |
| LogBatcher.MaskMasksEveryString | src/llm_client/observability/operational_writer.py:175-187 | every string value is masked once, at any depth, and nothing else changes: structure, keys, numbers |
| AccessLog.AccessLogIngestor.IngestOnce | src/llm_client/observability/access_log_ingestor.py:107-129 | the loop over a page of sorted new keys, and the marker never goes back |
| AccessLog.ListingOrderDoesNotMatter | src/llm_client/observability/access_log_ingestor.py:109-113 | whatever order the store lists, the same page is walked |
| AccessLog.WalkReads | src/llm_client/observability/access_log_ingestor.py:115-129 | the marker ends on the last key read; a poll that does not raise forwards exactly the events of the keys it read |
| AccessLog.RaisedWalk | src/llm_client/observability/access_log_ingestor.py:115-129 | a poll raises exactly at the first object that fails, after forwarding the events of the keys read and those the failing object brought before |
| AccessLog.ReadsAscend | src/llm_client/observability/access_log_ingestor.py:107-129 | over all polls the keys read in full strictly ascend, and the marker is the last of them |
| AccessLog.MarkerNeverDecreases | src/llm_client/observability/access_log_ingestor.py:107-129 | the marker never decreases |
| AccessLog.NothingIsSkipped | src/llm_client/observability/access_log_ingestor.py:107-129 | every object up to the marker was read in full, or stood on the page of a poll that found it gone and read a later one |
| AccessLog.ReadIsForwarded | src/llm_client/observability/access_log_ingestor.py:115-129 | at least once: the events of every object read are forwarded in one piece, also when polls raise midway |
| AccessLog.CleanRunsForwardOnce | src/llm_client/observability/access_log_ingestor.py:115-129 | exactly once and in key order if no poll raises |
| AccessLog.BacklogDrains | src/llm_client/observability/access_log_ingestor.py:110-113 | after j polls that can read their pages a backlog has shrunk by exactly 1000 j, down to 0 |
| AccessLog.BacklogIsEmptyAfter | src/llm_client/observability/access_log_ingestor.py:110-113 | so it is empty after its size over 1000 polls, rounded up, and no earlier |
| AccessLog.StandsStillIff | src/llm_client/observability/access_log_ingestor.py:115-129 | a poll, raising or not, leaves the marker if and only if its page is gone up to the first object that fails, or to its end |
| AccessLog.BlockedForGood | src/llm_client/observability/access_log_ingestor.py:107-129 | an object that fails every time, with only gone ones before it on the page, or a full page of gone ones, keeps the marker where it is for ever, whatever arrives later |
| AccessLog.FullPageOfGoneBlocks | src/llm_client/observability/access_log_ingestor.py:107-129 | a full page of objects that are gone but still listed also stops all forwarding for ever |
| PipelineCache.KeySaysEverything | src/llm_client/rag/pipeline_singleton.py:82-101 | overrides reach only fields of the key and are never rejected in a valid environment, so among its configs the key tells them apart; the other eleven fields are the environment's |
| PipelineCache.OverridesGive | src/llm_client/rag/pipeline.py:291-350 | a parsed strategy, a trimmed reranker name that is not blank and a positive top-k replace the environment's, unless the config they make is invalid |
| PipelineCache.SharedPipelines.GetSharedPipeline | src/llm_client/rag/pipeline_singleton.py:23-58 | the singleton is built once, from the environment of the first call, and is the fallback pipeline for good if that build fails |
| PipelineCache.SharedPipelines.GetPipelineForRequest | src/llm_client/rag/pipeline_singleton.py:104-193 | in an unchanged environment the pipeline returned has exactly the config of environment plus overrides; what is built is cached under its key and returned from then on; a failed build caches nothing; a request that changes nothing gets the singleton even if that is the fallback |
| PipelineCache.SharedPipelines.CloseSharedPipeline | src/llm_client/rag/pipeline_singleton.py:196-209 | afterwards nothing shared is left from any environment |

## Left out

- PgStore.RunRefinesPlainMap: assumes fresh ids, per-thread increasing (created_at, id), no put to a thread being deleted, and no delete of a thread while a chunk of it is in flight; what happens otherwise is shown by `FlushKeepsReadIff`, `StoringAgainInFlightLosesTheUpdate` and `DeletingInFlightResurrects`.
- CompositeStore.RunReadsLastPut: at most one put per thread at a time, every Redis and buffer write accepted; a refused Redis write is treated by `RefusedRedisWriteIsReadIff`, a delete that Redis refuses by `RedisPostgresCheckpointer.AdeleteThread`.
- CompositeCheckpointers.RedisPostgresCheckpointer.Recover: the method lets nothing interleave; chunks flushed between threads, or between a thread's reads and its replay, are treated by `RecoveryRuns`; puts by users during recovery are not.
- LogBatcher.NothingIsLost: a sink accepts a batch whole or not at all.
- SemanticCache.ServedIsFresh: sequential operations, and scans that bring at least every key present throughout.
- Redis, PostgreSQL and S3 clients, SQL text, serialisation, base64 and JSON codecs: abstract stores and assumed inverse pairs.
- `alist`, `aput_writes`, `parent_id`, thread ids that are not UUIDs in the Redis layer, checkpoints that are not dicts.
- The background flush loop with its retry delays and its give-up after ten failures; a flush's duration is a parameter.
- When wait notifications are sent: a waiting put may be woken at any time.
- LangGraph's own recursion limit and message-id merging; MCP tools; prompt contents.
- Which exception a failing tool raised, preview and full-result payloads of tool results, artifact contents.
- The PII future of a metadata chunk: it always resolves, so only its arrival is modelled.
- `get_cost` and `cheapest_model` for a single provider; token counting; the shadow router.
- The status object that `check` returns is shared with the breaker's dict; the model returns its value.
- `close` of the log writer and cancellation of its task during a flush; Loki and ELK formats.
- The lines and fields of an access-log object and the alerts: an object is a list of events.
- What the fallback pipeline is made of; retrieval and fusion.
- Rounding of floating-point numbers.
- Metrics, FastAPI routes, the Streamlit UI, migrations, scripts, LLM providers, ReAct text parsing.
