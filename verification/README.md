# Vireon CORE: verified model

A Dafny model of the durable state machines, idempotent protocols and algorithms of Vireon
CORE, with proofs about every input, every run and every reachable state.

Tables are maps and sequences. A transaction is one step that commits as a whole or leaves
the tables unchanged. Code between transactions is the program counter of a client: clients
interleave freely, may throw and may crash. Clocks, generated ids, providers and the fate of
each write are arbitrary inputs of the steps.

For each protocol there is a module with the steps, the invariant and the theorems over all runs
(`Triggers` with `TriggerTiming` and `TriggerOrders`, `Cognition`, `Memory`, `Directives`,
`WorkOrders`, `Gateway`, `Briefing`), and beside it a `...Store` module with a class whose
methods update the tables in place, in the order of the source's statements, and are proved to
do what the steps say. A module `...Effects` says on the plain rows what each transaction needs,
writes and answers, and follows an undisturbed client from its first step to its last. The
algorithms are `Fusion`, `Schedule` over `Calendar`, `Hierarchy`, `JsonValues`, `Redaction` and
`FirstMove`; `Retrieval` puts `Fusion` on top of `Memory`. `Keys`, `Ordering`, `Options` and
`Outcomes` are shared.

`Directives` and `Gateway` run beside the WorkOrder machine in one state, so their theorems
are about both machines together. `TriggerWitnesses` holds the runs that show the limits of the
firing protocol. `EndToEnd` runs `Triggers`, `WorkOrders` and `Gateway` side by side and follows
one occurrence of a trigger to the tools.

## Findings

- The task type is part of the WorkOrder key. An occurrence of a trigger has one WorkOrder per
  task type decided for it; the model path and the degraded path decide differently, so a retry
  after a crash can create a second one (`TriggerWitnesses.ChangedTypeGivesTwoOrders`). With a fixed type
  there is one at most (`TriggerOrders.FixedTypeGivesOneOrder`).
- The last UPDATE of a firing does not check that its occurrence is still the next one, and the
  search for an existing message is not backed by an index. A live attempt that outlives its lock
  makes `next_fire_at` fall behind the completed fires (`TriggerWitnesses.SlowAttemptLosesAStep`) and can
  save a second message (`TriggerWitnesses.SlowSearchSavesTwice`).
- A record found by both searches precedes all records found by one exactly up to a candidate
  limit of 61. At 62 two ranks of 62 tie with one rank of 1 (`Fusion.BothFirstIff`).
- Intervals made of a fraction of a second only do not move time forward
  (`Schedule.LaterIffWholeComponent`).
- `Date.UTC` reads years 0 to 99 as 1900 to 1999; the only date arithmetic this affects is a
  shift into February of year 0 (`Schedule.LastDayIsSeenLength`).
- A declared value that occurs inside a placeholder can reappear after redaction. For values
  without brackets it is enough, and necessary, to look at what the later fields leave of each
  placeholder that can come up (`Redaction.SafeInOrderIff`).
- A receipt written after the latest briefing but in its millisecond lies between two issues, ends
  included, and is in neither (`Briefing.SameMillisecondIsMissed`). It is reported exactly if
  another issue follows (`Briefing.ReceiptReportedIffIssuedAfter`).
- A briefing type and a timezone that both hold colons can share a key with another pair
  (`Briefing.KeyTextsCollide`).

## Model

| member | source | states |
|---|---|---|
| `Triggers.KeysNameTheOccurrence` | src/redis/triggerLock.ts:21-23 | Lock key and correlation id determine trigger and occurrence, although the timestamp holds colons |
| `Triggers.ReachableStatesAreSound` | src/elora/triggers/fireDueTriggers.ts:92-268 | Over every interleaving of attempts, throws, crashes and passing time, however long attempts take: every attempt past the re-read carries its trigger's own thread, every saved attempt a message of its occurrence, and the WorkOrders are exactly those of the recorded classifications |
| `Triggers.OneThreadPerTrigger` | src/elora/triggers/fireDueTriggers.ts:92-122 | In every run all messages of a trigger are in one thread |
| `TriggerTiming.OneMessagePerOccurrence` | src/elora/persistMessage.ts:55-87 | In every run in which live attempts write before their lock expires, at most one user message per (trigger, occurrence) |
| `TriggerTiming.InsertStaysUniqueIff` | src/elora/persistMessage.ts:55-87 | The INSERT after a search keeps messages unique if and only if no message of the occurrence was written in between; no index sees to it |
| `TriggerWitnesses.SlowSearchSavesTwice` | src/elora/persistMessage.ts:55-87 | A run in which a search outlives its lock and the occurrence gets two messages |
| `Triggers.PersistIsSearchThenInsert` | src/elora/persistMessage.ts:55-89 | Search and insert with nothing in between: the stored message, or the one appended |
| `TriggerOrders.OrdersCountTypes` | src/state/createWorkOrder.ts:98-181 | In such runs an occurrence has exactly as many WorkOrders as task types were decided for it; at most one if and only if the type never changed |
| `TriggerOrders.FixedTypeGivesOneOrder` | src/state/createWorkOrder.ts:98-181 | If moreover the task type is a fixed function of the stored message's content, at most one WorkOrder per occurrence |
| `TriggerWitnesses.ChangedTypeGivesTwoOrders` | src/elora/resolveEloraRoute.ts:49-50 | A run, within all time limits, in which the task type changes between two attempts on a planning message and the occurrence gets two WorkOrders |
| `Triggers.HeldLocksStay` | src/redis/triggerLock.ts:8-49 | An unexpired lock survives every step of every attempt except the release by the attempt that took it, so a late release frees nobody else's lock |
| `Triggers.OnlyFinishMovesTheSchedule` | src/elora/triggers/fireDueTriggers.ts:159-223 | Stale, contended, skipped, failed and crashed attempts leave next_fire_at alone |
| `TriggerTiming.OneLiveWriter` | src/elora/triggers/fireDueTriggers.ts:159-181 | In every run in which live attempts write before their lock expires, a trigger never has two live attempts past the re-read |
| `TriggerTiming.TimelyRunsStayOnSchedule` | src/elora/triggers/fireDueTriggers.ts:159-262 | If live attempts write before their lock expires, the k-th completed fire is the k-th occurrence of the schedule and next_fire_at has taken exactly one schedule step per completed fire |
| `TriggerTiming.OneOffFiresOnce` | src/elora/triggers/fireDueTriggers.ts:245-262 | In such runs a one_off trigger completes at most one fire |
| `TriggerTiming.NoOccurrenceFiresTwice` | src/elora/triggers/fireDueTriggers.ts:245-262 | In such runs, with a schedule that moves forward, completed occurrences strictly increase |
| `TriggerTiming.IntervalIsStrictlyLaterIff` | src/elora/triggers/computeNextFireAt.ts:18-50 | An interval schedule moves forward on every date if and only if some whole component of it is positive |
| `TriggerTiming.FinishStaysOnScheduleIff` | src/elora/triggers/fireDueTriggers.ts:255-262 | The unconditional last UPDATE keeps the row on schedule if and only if the attempt's occurrence is still the next one |
| `TriggerWitnesses.SlowAttemptLosesAStep` | src/elora/triggers/fireDueTriggers.ts:245-262 | A run in which an attempt outlives its lock: two completed fires, one schedule step |
| `TriggerEffects.UndisturbedAttempt` | src/elora/triggers/fireDueTriggers.ts:152-268 | An attempt with nothing in between: contended, or not allowed to fire, it changes no row; otherwise the trigger row, the thread, the message and the WorkOrder change as a completed fire says and nothing else; no lock is left behind |
| `TriggerEffects.LockLastsTwoMinutes` | src/redis/triggerLock.ts:37-45 | A free or expired lock is taken for 120 seconds; a held one ends the attempt |
| `TriggerEffects.PersistIsExact` | src/elora/persistMessage.ts:55-91 | One row with the content brought, unless the occurrence has a message; the oldest one is returned |
| `TriggerEffects.MessagesSayWhatWasDue` | src/elora/triggers/fireDueTriggers.ts:224-243 | In every run each stored message has the content its trigger had at a moment when it was active and the occurrence was its next one |
| `TriggerEffects.RowsAreKept` | src/elora/triggers/fireDueTriggers.ts:92-122 | Over any continuation messages, WorkOrders, threads, thread links and completed fires stay |
| `TriggerEffects.PollPicksDue` | src/elora/triggers/fireDueTriggers.ts:76-90 | A poll picks up a trigger exactly if it is active and its next occurrence has come |
| `TriggerStore.Store.AcquireTriggerFiringLock` | src/redis/triggerLock.ts:37-45 | Succeeds exactly when no unexpired lock is there, and then holds the token for the TTL |
| `TriggerStore.Store.ReleaseTriggerFiringLock` | src/redis/triggerLock.ts:47-49 | Removes the lock only while it holds the caller's token; every other token's lock stays |
| `TriggerStore.Store.EnsureTriggerThread` | src/elora/triggers/fireDueTriggers.ts:92-122 | Returns the stored thread, or the new one, which is then linked to the row and the only one added |
| `TriggerStore.Store.PersistMessage` | src/elora/persistMessage.ts:55-91 | The oldest message of the occurrence in the thread, or one appended with the content given; nothing is removed |
| `TriggerStore.Store.IngestUserMessage` | src/elora/triggers/fireDueTriggers.ts:226-243 | The message, and the WorkOrder of the decided type, if any, which names the thread and the oldest message; earlier ones stay |
| `TriggerStore.Store.AdvanceTrigger` | src/elora/triggers/fireDueTriggers.ts:245-262 | Null for a one_off, the next occurrence otherwise, one more completed fire; other rows and fields stay |
| `TriggerStore.Store.FireLocked` | src/elora/triggers/fireDueTriggers.ts:165-264 | Stale, skipped, thrown and fired exactly under their conditions; a fire changes exactly the trigger row, a missing thread, a missing message with the trigger content, and the WorkOrder called for, all earlier rows kept; anything else changes nothing |
| `TriggerStore.Store.FireDueTrigger` | src/elora/triggers/fireDueTriggers.ts:152-268 | Contended exactly when the lock is held; fired exactly when it is free and the occurrence may fire, with the rows of a completed fire; within 120 seconds the lock is gone afterwards |
| `Cognition.ReachableStatesAreSound` | src/cognition/runConversationalCognitiveRun.ts:301-425 | For any number of callers and any fate of any write: one caller at a time owns a run past PENDING, invocation row, call count and terminal writes agree with its place, COMPLETED implies a terminal invocation row |
| `Cognition.AtMostOneCall` | src/elora/llm/executeModelOperation.ts:336-428 | In every run the provider is called at most once per cognitive run and its invocation row gets at most one terminal write |
| `Cognition.ToldCompletedIsTrue` | src/cognition/runConversationalCognitiveRun.ts:301-417 | A caller told COMPLETED: the stored run is COMPLETED with a terminal invocation row and exactly one provider call, in that state and every later one |
| `Cognition.ContinuationsAreLater` | src/cognition/cognitiveRunState.ts:19-33 | Terminal statuses, terminal invocation rows and answers already given never change |
| `Cognition.TransitionOk` | src/cognition/transitionCognitiveRun.ts:79-150 | A transition keeps the history a path of the graph ending in the stored status, and passes to COMPLETED only over the gate |
| `Cognition.GraphShape` | src/cognition/cognitiveRunState.ts:19-33 | The terminal set is exactly the statuses without outgoing edges; COMPLETED is reached from RUNNING only |
| `CognitionEffects.TransitionIff` | src/cognition/transitionCognitiveRun.ts:79-150 | A transition goes through if and only if it is one of the five edges and, into COMPLETED, an invocation is SUCCEEDED, FAILED or TIMED_OUT; only status and history change |
| `CognitionEffects.ScriptedCaller` | src/cognition/runConversationalCognitiveRun.ts:285-428 | In any sound state, for every fate of every write, every provider answer and policy decision: what a new caller is told, and the status, history, invocation row and counts its run ends up with; COMPLETED is told exactly if it was found, or stored and heard |
| `CognitionEffects.CompletedIsReachable` | src/cognition/runConversationalCognitiveRun.ts:349-417 | From every reachable state a new caller of an absent or PENDING run can be told COMPLETED |
| `CognitionStore.Store.CreateCognitiveRun` | src/cognition/createCognitiveRun.ts:104-160 | Insert or fetch: an existing run is never touched, a lost write has no effect |
| `CognitionStore.Store.TransitionCognitiveRun` | src/cognition/transitionCognitiveRun.ts:79-150 | Heard exactly if the edge and the evidence are there and the write is acknowledged; status and history move together unless it is lost |
| `CognitionStore.Store.CallProvider` | src/elora/llm/executeModelOperation.ts:359-428 | One call; the invocation row gets the terminal status exactly unless the write is lost |
| `CognitionStore.Store.ExecuteModelOperation` | src/elora/llm/executeModelOperation.ts:319-428 | An invocation id comes back exactly if the policy allows it, the STARTED row is written and heard, and no row was there; calls, terminal writes and the row left behind follow |
| `CognitionStore.Store.FailRun` | src/cognition/runConversationalCognitiveRun.ts:235-265 | A RUNNING run becomes FAILED unless the write is lost; any other run is left alone |
| `CognitionStore.Store.CompleteOrFail` | src/cognition/runConversationalCognitiveRun.ts:396-417 | Completed is said exactly if the evidence is there and the write is heard; the run is COMPLETED, FAILED or untouched accordingly |
| `CognitionStore.Store.Synthesize` | src/cognition/runConversationalCognitiveRun.ts:349-425 | What the owner of a RUNNING run answers, and the status, history, row and counts it leaves, for every script |
| `CognitionStore.Store.BeginAndSynthesize` | src/cognition/runConversationalCognitiveRun.ts:309-425 | A PENDING run from the attempt to begin it to the answer, for every script |
| `CognitionStore.Store.RunConversationalCognitiveRun` | src/cognition/runConversationalCognitiveRun.ts:285-428 | COMPLETED is told if and only if a COMPLETED run was found, or the whole script went through to a stored and heard completion; a run that has begun is only replayed; a heard failure leaves the run FAILED; other runs are untouched |
| `Memory.ReachableStatesAreSound` | src/elora/memory/writeMemoryEmbedding.ts:44-117 | In every state reachable by create, supersede, embed and delete the invariant holds: version numbers, pointers, contents, chains, hashes, markers |
| `Memory.CurrentNumberCounts` | src/elora/memory/supersedeMemoryRecord.ts:53-92 | A record has exactly as many versions as the number of its current one |
| `Memory.ExactlyOneActive` | src/elora/memory/writeMemoryEmbedding.ts:80-111 | A version with embeddings has exactly one ACTIVE row, and every row reaches it along superseded_by |
| `Memory.ChainsAreAcyclic` | src/elora/memory/writeMemoryEmbedding.ts:106-111 | Supersession chains never return to a row |
| `Memory.DeletionIsComplete` | src/elora/memory/deleteMemoryRecord.ts:95-158 | A deleted record has tombstone contents only, exactly one deletion marker, which is the last version and the current one, and no embeddings |
| `Memory.LiveRecordsHaveNoMarker` | src/elora/memory/supersedeMemoryRecord.ts:62-71 | In every run only deleted records have deletion markers |
| `Memory.HistoryIsKept` | src/elora/memory/supersedeMemoryRecord.ts:24-38 | Over any continuation of any run version rows keep record, number and kind, contents change to the tombstone or not at all, and deleted records stay as they are |
| `Memory.WritesAreReadBack` | src/elora/memory/deleteMemoryRecord.ts:78-159 | What each successful operation leaves in all three tables: the record, the new version numbered by how many there were, the scrubbed versions, the embeddings that are new, superseded or gone; every other row as it was |
| `Memory.RejectsExactly` | src/elora/memory/writeMemoryEmbedding.ts:44-71 | Which operations fail with which error, for every operation; a failure changes nothing |
| `Memory.DeletedRejects` | src/elora/memory/writeMemoryEmbedding.ts:54-71 | Nothing can be written to a deleted record; embedding its marker and embedding its other versions fail differently |
| `Memory.EligibleIffLive` | src/elora/memory/retrieveHybridMemory.ts:292-300 | In every run a record is eligible for search if and only if it is not deleted |
| `Memory.HashIsAlwaysFresh` | src/elora/memory/retrieveHybridMemory.ts:349-378 | In every run the vector search finds exactly the ACTIVE embeddings of the model asked for of the current versions of live records; the tests on marker and content hash reject nothing |
| `Memory.VectorListIsDistinct` | src/elora/memory/retrieveHybridMemory.ts:349-380 | The join with ACTIVE embeddings finds each record at most once |
| `Memory.FtsListIsDistinct` | src/elora/memory/retrieveHybridMemory.ts:280-307 | The join with current versions finds each record at most once |
| `Retrieval.CandidateListsAreDistinct` | src/elora/memory/retrieveHybridMemory.ts:266-386 | On every reachable state both candidate lists are free of repeated ids |
| `Retrieval.BothPrecedeOne` | src/elora/memory/retrieveHybridMemory.ts:395-483 | On every reachable state, with at most 61 candidates on each side, every record found by both searches stands in the result before any record found by one |
| `Retrieval.DeletedIsNeverFound` | src/elora/memory/retrieveHybridMemory.ts:292-300 | Neither search finds a deleted record |
| `Retrieval.SupersededIsNeverFound` | src/elora/memory/retrieveHybridMemory.ts:292-300 | What full-text search finds is the latest version of its record, with the content the record shows |
| `Retrieval.StaleEmbeddingIsNeverFound` | src/elora/memory/retrieveHybridMemory.ts:360-378 | What vector search finds is the one ACTIVE embedding of the latest version |
| `MemoryStore.Store.MaxVersionNumber` | src/elora/memory/supersedeMemoryRecord.ts:53-57 | The maximum version number of the record, 0 without versions |
| `MemoryStore.Store.CreateMemoryRecordWithVersion` | src/elora/memory/createMemoryRecordWithVersion.ts:67-100 | Equals the specified step, rolls back when an id is taken, keeps the invariant |
| `MemoryStore.Store.SupersedeMemoryRecord` | src/elora/memory/supersedeMemoryRecord.ts:40-92 | Equals the specified step with its three errors, keeps the invariant |
| `MemoryStore.Store.WriteMemoryEmbedding` | src/elora/memory/writeMemoryEmbedding.ts:44-117 | Equals the specified step: new ACTIVE row first, then the older one superseded; keeps the invariant |
| `MemoryStore.Store.RemoveEmbeddings` | src/elora/memory/deleteMemoryRecord.ts:95-105 | Exactly the embeddings of the record's versions are gone, the others are unchanged |
| `MemoryStore.Store.ScrubVersions` | src/elora/memory/deleteMemoryRecord.ts:121-124 | Exactly the record's versions have tombstone content |
| `MemoryStore.Store.DeleteMemoryRecord` | src/elora/memory/deleteMemoryRecord.ts:78-159 | Equals the specified step in the source's statement order, rolls back when the marker's id is taken, keeps the invariant |
| `Fusion.FuseRankings` | src/elora/memory/retrieveHybridMemory.ts:112-141 | On any two lists: exactly the union, no id twice, in order of first appearance, each with the sum of 1/(60+rank) over its occurrences, its ranks and its sources |
| `Fusion.ScoreOf` | src/elora/memory/retrieveHybridMemory.ts:104-139 | For lists without repetition the score is the weight of the rank in each list that has the id |
| `Fusion.EntryOf` | src/elora/memory/retrieveHybridMemory.ts:112-141 | For lists without repetition the fused entry gives the place of the id in either list, the sum of 1/(60+rank) over the lists that have it, and those lists, full-text first |
| `Fusion.FirstSeenInOrder` | src/elora/memory/retrieveHybridMemory.ts:112-141 | The fused ids are in order of first appearance, full-text list before vector list |
| `Fusion.RankingIsStrictTotal` | src/elora/memory/retrieveHybridMemory.ts:470-482 | The final comparator is a strict total order on the fused ids |
| `Fusion.AheadIff` | src/elora/memory/retrieveHybridMemory.ts:470-482 | The comparator puts the higher score first, then the row of the requested domain, then the later version, then the smaller id |
| `Fusion.TopIsUnique` | src/elora/memory/retrieveHybridMemory.ts:473-483 | There is only one sorted prefix of the given length |
| `Fusion.RetrieveHybridMemory` | src/elora/memory/retrieveHybridMemory.ts:395-483 | Fails exactly for bad limits; otherwise returns the best min(limit, union size) ids in order, also when the query embedding failed |
| `Fusion.RowsById` | src/elora/memory/retrieveHybridMemory.ts:454-456 | One row per id of either list, the full-text row where there are two |
| `Fusion.DefaultLimitsIff` | src/elora/memory/retrieveHybridMemory.ts:399-409 | Without a candidate limit exactly limits 1 to 25 are accepted; the defaults are 5 of 20 |
| `Fusion.LimitsIff` | src/elora/memory/retrieveHybridMemory.ts:399-409 | Limits are accepted if and only if 1 <= limit <= candidate limit <= 100; given limits are the ones used, absent ones are 5 and max(20, 4 * limit) |
| `Fusion.Take` | src/elora/memory/retrieveHybridMemory.ts:303-304 | The first rows of a search, as many as the candidate limit or all |
| `Fusion.BothBeatsOne` | src/elora/memory/retrieveHybridMemory.ts:112-141 | With lists of at most 61 every record of both lists outscores every record of one |
| `Fusion.BothFirstIff` | src/elora/memory/retrieveHybridMemory.ts:399-409 | Records of both lists come before records of one list for all candidate lists if and only if the candidate limit is at most 61 |
| `Fusion.BothFirstByDefaultIff` | src/elora/memory/retrieveHybridMemory.ts:13-18 | With the default candidate limit that is so if and only if the limit is at most 15 |
| `Fusion.BothPrecedeOneInResult` | src/elora/memory/retrieveHybridMemory.ts:473-483 | In the returned list, for candidate lists without repetition, every two-list record stands before any one-list record |
| `Directives.LedgerIsSound` | src/directives/createOrMergeDirective.ts:221-352 | In every interleaving of detections, operator actions, WorkOrder steps and crashes: histories are graph paths from one creation row to the state, revisions are numbered 1..n, temporal fields are the latest revision's, completions and only they carry a mode, provenance refers to existing WorkOrders |
| `Directives.ReachableStatesAreSound` | src/directives/createOrMergeDirective.ts:92-352 | The inductive invariant behind it, with the key index and the evidence of system-validated completions, kept by every step |
| `Directives.OneDirectivePerKey` | src/directives/createOrMergeDirective.ts:247-305 | In every run, however many detections race, one directive per key with exactly one creation row |
| `Directives.GraphShape` | src/directives/directiveState.ts:34-47 | Closed states lead back to OPEN only, superseded ones nowhere, live ones always to SUPERSEDED |
| `Directives.DetectionKeepsLiveStates` | src/directives/createOrMergeDirective.ts:92-196 | No detection, winning or losing the insert, changes a defer count or a live state; a closed one goes to OPEN and nowhere else |
| `Directives.DeferCountCounts` | src/directives/getDirectiveDetail.ts:50-54 | The defer count is the number of transition rows into DEFERRED |
| `Directives.RevisionIffNewContent` | src/directives/createOrMergeDirective.ts:131-166 | A merge adds the revision numbered n+1 exactly if the content of the latest one differs and the directive is not superseded |
| `Directives.RepeatIsCarried` | src/directives/createOrMergeDirective.ts:147-195 | Detecting the same content again adds no revision, changes no state and says carried |
| `Directives.MaxIsLast` | src/directives/appendDirectiveRevision.ts:72-76 | The next revision number is one more than the number of revisions |
| `Directives.AddRevisionOk` | src/directives/appendDirectiveRevision.ts:59-127 | A new revision keeps the numbering and the mirrored temporal fields |
| `Directives.TransitionOk` | src/directives/transitionDirective.ts:63-148 | A transition keeps the history a path and records system_validated only with evidence |
| `Directives.AddProvenanceOk` | src/directives/addDirectiveProvenance.ts:68-151 | New provenance refers to an existing row and takes no evidence away |
| `Directives.LaterStatesGrow` | src/directives/transitionDirective.ts:102-143 | Histories, provenance and revisions only grow over any continuation |
| `Directives.SystemValidatedForGood` | src/directives/transitionDirective.ts:38-97 | A transition recorded as system_validated keeps, in every later state of both machines, the same provenance row naming a COMPLETED WorkOrder |
| `DirectiveEffects.EdgesByTarget` | src/directives/directiveState.ts:34-43 | The transition graph read by target states |
| `DirectiveEffects.TransitionIff` | src/directives/transitionDirective.ts:63-148 | Exactly when a transition goes through, the state, times and row it writes, and the error otherwise |
| `DirectiveEffects.RevisionIff` | src/directives/appendDirectiveRevision.ts:41-127 | Exactly when a revision is accepted; it has the next number and its temporal fields are mirrored |
| `DirectiveEffects.ProvenanceIff` | src/directives/addDirectiveProvenance.ts:50-151 | Exactly when evidence is accepted; it is appended |
| `DirectiveEffects.MergeIsExact` | src/directives/createOrMergeDirective.ts:92-196 | Exactly when a merge goes through; then the latest revision has the detected content, added only if different, a closed directive is open, a live or superseded one stays, and the outcome is reopened, revised or carried accordingly |
| `DirectiveEffects.CreationIsExact` | src/directives/createOrMergeDirective.ts:264-340 | Exactly when a first detection is accepted, and all rows it makes |
| `DirectiveEffects.UndisturbedDetection` | src/directives/createOrMergeDirective.ts:217-353 | A detection with nothing between lookup and INSERT: rejected, suppressed, merged or created under its exact condition, with its outcome; no other directive changes |
| `DirectiveEffects.FoundRowMerges` | src/directives/createOrMergeDirective.ts:224-244 | A lookup that finds the row merges in the same transaction |
| `DirectiveEffects.LostRaceMerges` | src/directives/createOrMergeDirective.ts:287-303 | A detection whose INSERT finds the key taken merges into the winner's directive |
| `DirectiveEffects.SuppressionStopsDetection` | src/directives/createOrMergeDirective.ts:231-237 | While a suppression runs no detection of its key changes anything |
| `DirectiveEffects.OperatorStepIsExact` | src/directives/transitionDirective.ts:63-155 | An operator's transition, revision or evidence changes the named directive as specified, or nothing |
| `DirectiveStore.Store.MaxRevisionNumber` | src/directives/appendDirectiveRevision.ts:72-76 | The maximum revision number, 0 without revisions |
| `DirectiveStore.Store.InsertDirectiveRevisionRow` | src/directives/appendDirectiveRevision.ts:53-133 | Equals the specified revision with its errors; a failure changes nothing |
| `DirectiveStore.Store.InsertDirectiveProvenanceRow` | src/directives/addDirectiveProvenance.ts:68-157 | Equals the specified append; a failure changes nothing |
| `DirectiveStore.Store.ApplyDirectiveTransition` | src/directives/transitionDirective.ts:63-155 | Equals the specified transition, state, timestamps and row together |
| `DirectiveStore.Store.FindCompletedWorkOrder` | src/directives/transitionDirective.ts:38-54 | True exactly if some provenance row names a COMPLETED WorkOrder |
| `DirectiveStore.Store.ReviseAndReopen` | src/directives/createOrMergeDirective.ts:131-195 | Equals the specified revision and reopening, with its outcome or error |
| `DirectiveStore.Store.InsertNewDirective` | src/directives/createOrMergeDirective.ts:264-340 | Accepted exactly under its condition; directive, revision 1, creation row and provenance as spelled out |
| `DirectiveStore.Store.IsSuppressed` | src/directives/createOrMergeDirective.ts:231-237 | True exactly if a suppression of the key is still running |
| `DirectiveStore.Store.MergeIntoExistingDirective` | src/directives/createOrMergeDirective.ts:92-196 | Goes through exactly under its condition, with the merged directive and the outcome spelled out |
| `DirectiveStore.Store.CreateOrMergeDirective` | src/directives/createOrMergeDirective.ts:217-353 | Keeps the ledger sound; rejects, suppresses, merges or creates exactly under their conditions, with outcome or error; a throw leaves both tables as they were |
| `WorkOrders.ReachableStatesAreSound` | src/state/transitionWorkOrder.ts:108-412 | In every run the rows of each WorkOrder form a graph path from RECEIVED to its status, with decision, run, receipt and candidate exactly where the status calls for them |
| `WorkOrders.NoStatusTwice` | src/state/workOrderState.ts:31-53 | No status is visited twice and there are at most ten transition rows |
| `WorkOrders.Substantiation` | src/state/transitionWorkOrder.ts:227-316 | In every run EXECUTING to COMPLETED have exactly one run, RECEIPT_WRITTEN to COMPLETED exactly one receipt naming that run and the linked decision; no run for a refuse or capability_missing decision |
| `WorkOrders.ThrowsAreUnreachable` | src/state/transitionWorkOrder.ts:198-211 | No reachable state makes a transition fail for a missing decision, run or receipt, or a key collision |
| `WorkOrders.TransitionSucceedsIff` | src/state/transitionWorkOrder.ts:113-384 | In every reachable state a transition succeeds if and only if the edge exists and the caller brings decision, matching outcome or candidate where the edge wants them |
| `WorkOrders.RowKeysAreUnique` | src/state/transitionWorkOrder.ts:229-270 | In every run the run keys and the receipt keys of different WorkOrders differ |
| `WorkOrders.TerminalIffNoEdge` | src/state/workOrderState.ts:57-62 | The terminal set is exactly the statuses without outgoing edges |
| `WorkOrders.OneOrderPerKey` | src/state/createWorkOrder.ts:136-181 | In every run one WorkOrder per idempotency key |
| `WorkOrders.CreateKeeps` | src/state/createWorkOrder.ts:107-195 | Creation inserts or returns the WorkOrder stored under the key |
| `WorkOrders.LaterStatesGrow` | src/state/workOrderState.ts:51-62 | Over any continuation rows are only added, the decision link is written once, terminal WorkOrders do not change |
| `WorkOrderEffects.EdgesByTarget` | src/state/workOrderState.ts:31-62 | The transition graph read by target states |
| `WorkOrderEffects.TransitionFailsWith` | src/state/transitionWorkOrder.ts:108-384 | In every sound state the exact error of a transition, or none: edge, decision input, matching outcome, candidate |
| `WorkOrderEffects.TransitionMovesOn` | src/state/transitionWorkOrder.ts:121-412 | Everything a transition writes: status, row, the decision with the outcome of the request, run, receipt and candidate of its edge, and no other WorkOrder |
| `WorkOrderEffects.CreateIsExact` | src/state/createWorkOrder.ts:107-195 | A new key makes a RECEIVED WorkOrder, a known one returns it, a taken id fails |
| `WorkOrderEffects.NextAfterClassification` | src/state/workOrderState.ts:68-76 | In every run a WorkOrder goes from AUTHORITY_CLASSIFIED to FAILED or where its decision sends it, outcome by outcome |
| `WorkOrderEffects.DecisionsAreRequested` | src/state/transitionWorkOrder.ts:121-192 | In every run each decision has the outcome and the WorkOrder of the classification request that made it |
| `WorkOrderStore.Store.CreateWorkOrder` | src/state/createWorkOrder.ts:107-195 | Inserts a RECEIVED WorkOrder with its initial row, returns the one stored under the key, or fails on a taken id; everything else stays |
| `WorkOrderStore.Store.WriteSubstantiation` | src/state/transitionWorkOrder.ts:121-384 | Writes exactly the rows that substantiate the edge, the decision with the outcome of the request among them, or fails before the first write |
| `WorkOrderStore.Store.RunTransition` | src/state/transitionWorkOrder.ts:104-450 | The statements of the transaction equal the specified transition |
| `WorkOrderStore.Store.TransitionWorkOrder` | src/state/transitionWorkOrder.ts:452-455 | Keeps the invariant; fails with the exact error and no change, or writes exactly the rows of the edge |
| `Gateway.KeyTextNamesTheCall` | src/tools/gateway.ts:89-94 | The idempotency key determines WorkOrder, tool and version |
| `Gateway.AuthorisedIff` | src/tools/gateway.ts:9-19 | By the decision row the WorkOrder links to: act may run every tool, act_and_report those that ask for no more, nobody else anything |
| `Gateway.AuthorityIsItsOwn` | src/tools/gateway.ts:70-87 | In every run the decision behind an invocation exists and belongs to the very WorkOrder |
| `Gateway.ReachableStatesAreSound` | src/tools/gateway.ts:70-191 | For any interleaving of calls, write failures and WorkOrder steps: one call owns a pending row, answers agree with the row |
| `Gateway.AtMostOneRun` | src/tools/gateway.ts:99-191 | At most one handler run per key, under a linked decision that meets the tier; the status leaves pending at most once, and succeeded means exactly one run |
| `Gateway.HandlerRunsAuthorised` | src/tools/gateway.ts:70-87 | At the moment a handler runs the linked decision is act or act_and_report and meets the tier, and no handler ran before |
| `Gateway.OutcomeStays` | src/tools/gateway.ts:70-80 | The outcome checked once holds in every later WorkOrder state |
| `Gateway.LaterCallsReturnTheSame` | src/tools/gateway.ts:120-139 | Once the status is final every call of the key that returns from then on returns the same id and status |
| `Gateway.ReplayReturnsTheStatus` | src/tools/gateway.ts:120-139 | A replay finds the row and returns its id and status |
| `Gateway.IdNamesTheKey` | src/tools/gateway.ts:96-118 | In every run an invocation id belongs to one key |
| `GatewayEffects.ScriptedCall` | src/tools/gateway.ts:63-191 | In any state, for every fate of the writes, validation result and handler: what an undisturbed call answers and the row it leaves; no other call or row changes |
| `GatewayStore.Store.MarkInvocation` | src/tools/gateway.ts:143-158 | The status moves once unless the write is lost; the answer is heard or an exception |
| `GatewayStore.Store.InvokeRegisteredTool` | src/tools/gateway.ts:63-191 | Denied exactly without authority; a key with a row is only replayed; a first call leaves exactly one row with its status, handler runs and terminal writes, and answers with it exactly if both writes are heard |
| `EndToEnd.KeyTextNamesTheOrder` | src/state/createWorkOrder.ts:98-105 | The WorkOrder key names thread, message and task type |
| `EndToEnd.SidesAgree` | src/elora/ingestUserMessage.ts:502-521 | In every run of the three machines together, an attempt has classified exactly the WorkOrders that exist under its keys |
| `EndToEnd.OneWorkOrderPerOccurrence` | src/state/createWorkOrder.ts:98-181 | In runs with timely writes and a fixed classification an occurrence of a trigger has at most one WorkOrder |
| `EndToEnd.OneHandlerRunPerOccurrence` | src/tools/gateway.ts:70-191 | In such runs each occurrence of a trigger leads to at most one handler run per tool and version, under a decision that meets the tier |
| `Briefing.KeyTextNamesTheIssue` | src/briefing/issueBriefing.ts:168-168 | The key determines the issue unless types and timezones both hold colons |
| `Briefing.KeyTextsCollide` | src/briefing/issueBriefing.ts:43-53 | With colons in both, two different issues share a key |
| `Briefing.CollectedOnce` | src/briefing/collectCandidates.ts:298-320 | The five collectors together never produce a source twice |
| `Briefing.CollectsExactly` | src/briefing/collectCandidates.ts:144-320 | A draft is collected if and only if it stands for an unresolved directive, an open or recently completed WorkOrder, a recent receipt other than state_transitioned, or a proposed candidate, in the right lane |
| `Briefing.NewIssueEntries` | src/briefing/issueBriefing.ts:98-271 | No source twice in an issue; an entry is new if and only if no other issue holds an active entry for its source |
| `Briefing.NewIssueLists` | src/briefing/issueBriefing.ts:216-271 | A new issue has an entry for exactly the rows that belong into it |
| `BriefingEffects.SinceOpens` | src/briefing/collectCandidates.ts:60-77 | The window opens with the latest issue of the type, or a day ago before the first one |
| `BriefingEffects.ListedIffBelongs` | src/briefing/collectCandidates.ts:98-300 | Which row belongs into an issue and in which lane: unresolved directives, WorkOrders at work, stuck or completed in the window, skipped firings and other receipts of the window, proposed candidates |
| `BriefingEffects.NewIssueIsComposed` | src/briefing/issueBriefing.ts:216-293 | A new issue has its key and time, no source twice, exactly the rows that belong, each new or carried from the latest issue that shows it as active |
| `BriefingEffects.IssueStepIsExact` | src/briefing/issueBriefing.ts:168-213 | A key that has an issue changes nothing; any other adds one such issue |
| `Briefing.NothingFallsBetweenIssues` | src/briefing/collectCandidates.ts:60-77 | By the clock: every receipt other than state_transitioned, and every completion, at or after one issue of a type and strictly before another is reported in some issue of that type |
| `Briefing.ReceiptReportedIff` | src/briefing/collectCandidates.ts:60-77 | Exactly which receipts an issue of the type reports: one is issued at a later step, and one was issued before or the later one is within a day |
| `Briefing.CompletionReportedIff` | src/briefing/collectCandidates.ts:144-162 | The same for completions |
| `Briefing.ReceiptReportedIffIssuedAfter` | src/briefing/collectCandidates.ts:205-211 | Once the type has been issued, a receipt is reported if and only if an issue of the type comes at a later step, in the same millisecond or not |
| `Briefing.CompletionReportedIffIssuedAfter` | src/briefing/collectCandidates.ts:144-162 | The same for completions |
| `Briefing.SameMillisecondIsMissed` | src/briefing/collectCandidates.ts:60-77 | A run in which a receipt between two issues, ends included, is reported by none: it came after the latest one in its millisecond |
| `Briefing.OneIssueOneEntry` | src/briefing/issueBriefing.ts:168-271 | In every run one issue per key, and no issue names a source twice |
| `Briefing.ReachableStatesAreSound` | src/briefing/issueBriefing.ts:168-293 | The invariant behind it, kept by every step including repeated and failed issues |
| `BriefingStore.Store.FindIssue` | src/briefing/issueBriefing.ts:198-213 | Finds the issue of the key exactly if there is one |
| `BriefingStore.Store.FindCarriedFromIssue` | src/briefing/issueBriefing.ts:98-115 | The most recently published issue with an active entry for the source, if any |
| `BriefingStore.Store.AssembleEntries` | src/briefing/issueBriefing.ts:219-271 | One entry per draft, carried or new as specified |
| `BriefingStore.Store.IssueBriefing` | src/briefing/issueBriefing.ts:168-293 | Issues once per key, the issue composed as specified; a repeated call changes nothing and returns the stored issue |
| `FirstMove.CompareIsTotalPreorder` | src/briefing/selectFirstMove.ts:27-46 | The comparator is a total preorder |
| `FirstMove.CompareIsLexicographic` | src/briefing/selectFirstMove.ts:27-46 | A blocker comes first, then the earlier due date with none last, then more dependents, then greater age; zero exactly for drafts equal in all four |
| `FirstMove.SelectFirstMove` | src/briefing/selectFirstMove.ts:55-59 | No eligible draft beats the first move, and of those it ties with it is the first; a blocker exactly if an eligible blocker exists |
| `FirstMove.RankWithinLane` | src/briefing/selectFirstMove.ts:68-82 | Every draft gets one more than the number of drafts of its lane that come before it |
| `FirstMove.RankFollowsPrecedence` | src/briefing/selectFirstMove.ts:68-82 | Within a lane the draft that beats another has the lower rank, ties in input order |
| `FirstMove.LaneRanksAreABijection` | src/briefing/selectFirstMove.ts:76-82 | The ranks of a lane are exactly 1..n, no two alike |
| `FirstMove.FirstMoveLeadsItsLane` | src/briefing/selectFirstMove.ts:55-82 | The first move has the lowest rank among eligible drafts of its lane |
| `Hierarchy.IsOwnershipAssignmentAuthorized` | src/elora/triggers/isOwnershipAssignmentAuthorized.ts:41-68 | On any finite reporting map, cycles included: authorised if and only if the creator is the owner or stands above the owner; terminates |
| `Hierarchy.AboveIffChain` | src/elora/triggers/isOwnershipAssignmentAuthorized.ts:41-68 | Standing above somebody is being at the upper end of a chain of reporting rows |
| `Hierarchy.NeverToASuperior` | src/elora/triggers/isOwnershipAssignmentAuthorized.ts:12-15 | Off cycles nobody can name a superior as owner |
| `Hierarchy.UsableIff` | src/elora/resolveAuthorityWithHierarchy.ts:39-56 | A rule is usable exactly if it is an active approve rule of the actor, for any or this task type, with a non-empty pattern that compiles and matches |
| `Hierarchy.SelectRules` | src/elora/resolveAuthorityWithHierarchy.ts:115-120 | Exactly the active approve rules of the superior, oldest first |
| `Hierarchy.FindRule` | src/elora/resolveAuthorityWithHierarchy.ts:115-122 | The earliest usable rule of the actor, found exactly if there is one |
| `Hierarchy.WalkForRule` | src/elora/resolveAuthorityWithHierarchy.ts:96-142 | The walk finds a rule exactly if some proper superior has a usable one, and then the nearest superior's; terminates on cycles |
| `Hierarchy.ResolveAuthority` | src/elora/resolveAuthorityWithHierarchy.ts:84-142 | Only ordinary escalations are resolved, never through the starting actor's own rule; everything else is the baseline |
| `Hierarchy.SettlingIsDetermined` | src/elora/resolveAuthorityWithHierarchy.ts:115-135 | The tables alone determine the settling superior and the age of the rule |
| `Calendar.CountingBack` | src/elora/triggers/computeNextFireAt.ts:14-16 | Day number to civil date and back |
| `Calendar.ReadingBack` | src/elora/triggers/computeNextFireAt.ts:14-16 | Civil date to day number and back |
| `Calendar.FormulaCountsMonths` | src/elora/triggers/computeNextFireAt.ts:14-16 | The day-number formula of section 21.4.1.3 of ECMA-262 counts the same days |
| `Schedule.LastDayIsSeenLength` | src/elora/triggers/computeNextFireAt.ts:14-16 | Day zero of the next month is the month's length, but for the two-digit-year rule in February of year 0 |
| `Schedule.AddIso8601Duration` | src/elora/triggers/computeNextFireAt.ts:18-50 | The setters one after the other give the closed form on every start date and duration |
| `Schedule.LaterIffWholeComponent` | src/elora/triggers/computeNextFireAt.ts:45-49 | The result is never earlier, and strictly later if and only if some whole component is positive |
| `Schedule.MonthlyFires` | src/elora/triggers/computeNextFireAt.ts:27-43 | After n fires of a month/year interval the month index is start + n(12Y+M), the time of day kept, the day the kept one |
| `Schedule.KeptIsMinimum` | src/elora/triggers/computeNextFireAt.ts:38-42 | The kept day is the minimum of the first day and the lengths of all months landed in |
| `JsonValues.IsJsonValue` | src/schemas/claim.ts:42-59 | The depth-first walk with its shared seen set terminates on every finite object graph and gives the specified verdict and set |
| `JsonValues.Accepts` | src/schemas/claim.ts:61-63 | Accepts if and only if the part reachable from the root is a tree of arrays and plain objects with JSON leaves |
| `JsonValues.CheckIsJsonTree` | src/schemas/claim.ts:36-59 | The walk's verdict equals the access-path definition, which does not mention the walk |
| `Redaction.RedactStringValue` | src/elora/llm/contentPolicy/redactModelInput.ts:8-19 | The loop over the fields gives the sequential replacement and adds its count |
| `Redaction.NothingDeclaredSurvives` | src/elora/llm/contentPolicy/redactModelInput.ts:8-19 | If declared values hold no brackets and occur in no placeholder that can come up, none survives, whatever the string and the field order |
| `Redaction.SafeIffClear` | src/elora/llm/contentPolicy/redactModelInput.ts:8-19 | For values without brackets, none inside another: nothing declared survives in any string and any field order if and only if no declared value occurs in a placeholder |
| `Redaction.SafeInOrderIff` | src/elora/llm/contentPolicy/redactModelInput.ts:8-19 | For any field list whose values hold no brackets, nested or not, in its given order: nothing declared survives in any string if and only if nothing survives in the placeholders that can come up |
| `Redaction.SafeIffEveryOrderClean` | src/elora/llm/contentPolicy/redactModelInput.ts:8-19 | The same for all orders of a list at once |
| `Redaction.NestingCanHideALeak` | src/elora/llm/contentPolicy/redactModelInput.ts:10-17 | A nested pair that is safe although one value occurs in a placeholder |
| `Redaction.RedactConcat` | src/elora/llm/contentPolicy/redactModelInput.ts:14-16 | Redaction works on both sides of a bracket separately |
| `Redaction.PlaceholderLeak` | src/elora/llm/contentPolicy/redactModelInput.ts:10-17 | A list of two fields that is not safe: one value is part of every placeholder |
| `Redaction.ReplacementsAccountForLength` | src/elora/llm/contentPolicy/redactModelInput.ts:14-16 | Every counted replacement trades one value for one placeholder |
| `Redaction.RedactionIsLeafwise` | src/elora/llm/contentPolicy/redactModelInput.ts:21-34 | Shape, keys and other leaves are kept, each string leaf is rewritten in place, counts add up |
| `Redaction.RedactModelInput` | src/elora/llm/contentPolicy/redactModelInput.ts:45-49 | The whole tree at once, with the count of all replacements and no surviving declared value |
| `Keys.KeyDeterminesParts` | src/shared/ids.ts:5-7 | With one position that may hold colons, the key determines every part |
| `Keys.SafeIffOneOpenPosition` | src/shared/ids.ts:5-7 | Keys of n parts are collision free if and only if at most one position may hold a colon |

## Left out

- Parsing: the duration pattern, cron expressions, one_off timestamps, Zod schemas and the trimming of keys and titles; durations and keys come parsed and trimmed.
- Cron occurrences: an arbitrary function from an occurrence to the next.
- Date range limits of ECMAScript and invalid dates.
- Provider calls, full-text ranking, vector distance, SHA-256 and id generation: arbitrary results, given rankings, the hashed value itself, and arbitrary ids; where rows are found by id, a colliding one fails the INSERT.
- Floating point: fused scores are exact reals.
- Redaction of declared values that themselves hold brackets: no exact condition is stated for them.
- Interleavings inside a transaction, beyond search and insert of a message and the lost INSERT of a directive detection: memory deletion and embedding lock different rows, so their invariant is stated for whole transactions.
- The order of rows of equal timestamps, and of collected briefing drafts.
- Which standing rule wins among rules of one superior with the same creation time: the earlier row.
- Ranks, first move, prose and artifact of an issue: the ranks and the first move are in `FirstMove`, the rest is I/O; a failed issue is a step without effect.
- Skip receipts of triggers, action receipts other than state_transitioned, payloads, reasons and timestamps that no decision reads.
- Tool payload sanitising and truncation, tool lookup and the tool's own work: the handler is one step with a good or bad outcome.
- WorkOrder task content, delegation and workspace references; actor references appear as known or unknown.
- Regular expressions and cue classification: arbitrary predicates; a pattern may fail to compile.
- One poll pass visits its due triggers one after the other; the model lets them interleave.
- HTTP routes, web application, telemetry, diagnostics, seeds and migrations.
