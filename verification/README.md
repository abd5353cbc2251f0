# Verified models of lvu's protocols

Dafny models of the parts of lvu whose correctness depends on the order in which things happen: durable saves, command enrichment, the agent bridge's sessions, turns, framing and output, the host of the bridge process, and the budgeted inspection document. Everything outside (files, processes, clocks, the remote agent, SQLite, the user) appears as an input that may take any value at any step, so each theorem holds for every interleaving, failure and timing.

`dafny verify dfyconfig.toml` checks the whole project.

## What the modules say

* **Durable saves** (`SaveGroups`, `SaveRuns`, `SaveAcks`, `SaveWorker`). A worker drains queued saves into a batch, keeps only the newest per view, and withholds the acknowledgements of superseded saves until the replacement's fate is known. The specification is a step relation over a log of answers and commits; `SaveWorker.MemoryWorker` is the worker with its queue, stash and maps, and its `Loop` is shown to be a run of that relation. The main results: acknowledgements are truthful and each save gets exactly one, every failure handed on is the store's own of the save it belongs to, batching refines the one-at-a-time worker when the store accepts everything, Flush fails exactly when something is unrecovered and with its cause. Where the store refuses the newest save of a group, batching can lose an older one that would have been accepted; the exact condition is `CoalescingAgreesExactly` and an example is `CoalescingCanLoseAnOlderSave`.
* **Colour rules** (`ColorRules`). Splitting a rule list into legacy rules and positioned classifiers and merging them again returns the list exactly when its kept rules are normalised; for arbitrary stored lists no legacy rule is lost before the final cap, and what stands at every position of the merged list is told by the stored lists alone.
* **Command enrichment** (`AttemptStore`, `EnrichBatch`, `EnrichRunner`, `CommandExecution`, `UnstorableResults`). Records are reserved before a byte of them reaches a command. The child's conversation is a script of polls; a durable ready result exists only if the script was a valid conversation in which that record was answered exactly once with allowed fields. The store takes the results of a batch all together or not at all, within its limits on fields, names, bytes and diagnostics: after a valid conversation every answer is durable if and only if it takes what they make, and an execution succeeds under an exact condition on what was stored before, the answers and their sizes. Over any history of executions, with ambiguous store failures anywhere, what is handed to the command is known exactly, no record is delivered twice, nothing stored is ever changed and every ready result was earned in one of the executions, by a record that execution handed over. The same runner over the ledger that lives only in memory delivers nothing twice either.
* **Results of a command** (`PrefixEncoding`, `Presentation`, `CommandApp`, `CommandController`). One operation at a time is frozen, reviewed, executed, saved and published. The publications shown follow the references in the views, the byte limits hold in every reachable state, a step keeps its last good publication until an acknowledged save replaces it, publication after a durable save cannot fail, and every dispatched save went through a freeze, a presentation and a start with the same capture, with the chain prefix unchanged up to a collision of the fingerprint's UUID.
* **Bridge** (`BridgeSessions`, `TurnStates`, `TurnLaws`, `ArchiveRaces`, `BridgeTurns`, `RecoveryCursor`, `Framing`, `Writer`, `InFlight`). Session reservations, turn generations, archiving, the rotating recovery cursor, line framing and the backpressured writer. Each method of `BridgeSessions.Bridge` and `BridgeTurns.Session` is one stretch of the TypeScript between awaits. A `Session` method takes the session from one state of the state machine in `TurnStates` to the next; `TurnLaws` says what the events do to any session, ephemeral or not, and `ArchiveRaces` tells exactly from which of its states two archive tasks can come to share an agent.
* **Agent host** (`AgentHost`). Requests are fenced by process generation: every accepted request is called back exactly once, and retired generations change nothing.
* **Inspection** (`RoundRobin`, `InspectionDocument`, `InspectionAdmission`, `Inspection`). The document's own counters are part of its measured text. The result stays within the limit, conserves counts and bytes, and leaves out only what did not fit at its turn.

## Where the code does less than one might expect

* Coalescing a batch is not always the same as serving its saves one at a time (`SaveGroups.CoalescingAgreesExactly`).
* The colour rules round trip is lossy for rules that are not normalised (`ColorRules.RoundTripExactly`).
* A valid conversation with nothing failing outside does not always end in durable answers: results that exceed the store's limits, each on its own or all together, are refused as a whole, every record asked about stays reserved, and no execution with one of them succeeds again (`EnrichRunner.CommandEnricher.RunBatch`, `CommandExecution.Execute`, `UnstorableResults.RefusedForGood`). `UnstorableResults.FiveBlobs` is such a run, with five answers that the store would take one by one.
* Following the views does not always drop the publication of a step that left its chain. It does exactly when the chains have changed since they were last followed, or everything shown was of a present step before (`CommandController.DepartedStepsAreDropped`); a step that is back only for the moment its save is acknowledged keeps its publication after it has left (`CommandController.DepartedStepStays`).
* A step without a reference that was known to have none stays shown if it was (`CommandController.UnreferredStepsAreCleared`).
* Two tasks can archive the agent of one session at once. There are three that do so: the one the session schedules for itself, shutdown's and recovery's. `BridgeTurns.ArchivesTwice` is a run in which the first two meet. `ArchiveRaces.ArchivesTwiceExactly` gives the condition under which any two can still meet, as an if-and-only-if over the session's own flags, for every reachable state; `ArchiveRaces.ShutdownArchivesAlone` is its form once shutdown archives: no second task ever comes exactly when none is scheduled, no terminal update of a live session can schedule one, and recovery is not at the record nor still to come to it. Nothing rules it out for an ephemeral session that the bridge itself started (`ArchiveRaces.StartedSessionAtRisk`).

## Model

| member | source | states |
|---|---|---|
| SaveGroups.SaveEachCommitsBest | crates/lvu-app/src/memory.rs:1146-1159 | one-at-a-time service with the newest guard ends with the acceptable save of highest sequence, and only that |
| SaveGroups.LatestIsHighest | crates/lvu-app/src/memory.rs:1131-1135 | the save kept of a group has the highest sequence, the last one among equals |
| SaveGroups.CoalescingAgreesExactly | crates/lvu-app/src/memory.rs:1107-1160 | batching and one-at-a-time service leave the same durable row if and only if the group's latest save is stale or accepted, or nothing in it could commit |
| SaveGroups.CoalescingCanLoseAnOlderSave | crates/lvu-app/src/memory.rs:1291-1317 | a concrete group where the refused latest save takes an acceptable older one with it |
| SaveGroups.AcceptedGroupIsSaveEach | crates/lvu-app/src/memory.rs:1131-1160 | with a store that accepts every write, a group leaves the whole view state that one-at-a-time service leaves |
| SaveRuns.RunIsCoherent | crates/lvu-app/src/memory.rs:1261-1265 | in every run the newest guard equals the committed sequence of each view |
| SaveRuns.BatchingRefinesSerial | crates/lvu-app/src/memory.rs:997-1106 | for any run over distinct sequences and an accepting store, every state, and so every other command, sees exactly what serving the queued saves one by one would have left |
| SaveRuns.StepRefinesSerial | crates/lvu-app/src/memory.rs:1090-1332 | one batch step advances every view as the saves it consumed would one by one |
| SaveRuns.SortIsStable | crates/lvu-app/src/memory.rs:1136-1140 | withheld keys are answered in ascending sequence, those of one sequence in the order they were queued |
| SaveAcks.AcksAreTruthful | crates/lvu-app/src/memory.rs:1107-1116 | in every run Saved(view, s) is answered only after a save of that view with sequence at least s has committed, and committed sequences strictly increase per view |
| SaveAcks.EachSaveAnsweredOnce | crates/lvu-app/src/memory.rs:1268-1330 | in every run each queued save gets exactly one Saved or SaveFailed |
| SaveAcks.AnswerOrderKeepsKeys | crates/lvu-app/src/memory.rs:1136-1155 | withheld keys in sequence order followed by the latest are the group's keys, none lost or doubled |
| SaveAcks.RunsAreHonest | crates/lvu-app/src/memory.rs:1291-1330 | in every run each write carries the store's own verdict on its save, and each failed answer the store's failure of the newest save it answers, or the malformed bookmark exactly when that save is malformed |
| SaveAcks.AnswersAscend | crates/lvu-app/src/memory.rs:1136-1155 | the keys of one answer ascend, and the newest is the last |
| SaveAcks.FlushReportsUnrecoveredFailures | crates/lvu-app/src/memory.rs:1496-1505 | Flush fails if and only if a recipe failure is unrecovered or some view's last settled group failed, and then replies with the recipe's failure or else with the cause of such a group |
| SaveAcks.CleanFlushIsDurable | crates/lvu-app/src/memory.rs:1496-1505 | with sequences increasing per view, after a clean Flush the last queued save of every view is the committed one |
| SaveWorker.GroupByView | crates/lvu-app/src/memory.rs:1117-1120 | the positions of every view, in batch order |
| SaveWorker.Supersede | crates/lvu-app/src/memory.rs:1132-1144 | the latest position of a group and the sorted keys withheld behind it |
| SaveWorker.CoalesceView | crates/lvu-app/src/memory.rs:1145-1159 | a stale group is acknowledged without a write, any other left to persist with its keys withheld |
| SaveWorker.Coalesce | crates/lvu-app/src/memory.rs:1131-1161 | all groups settled so, in position order |
| SaveWorker.Validate | crates/lvu-app/src/memory.rs:1185-1208 | the positions to persist are split, in order, into refused and surviving ones |
| SaveWorker.MemoryWorker.Drain | crates/lvu-app/src/memory.rs:1096-1106 | the batch is the longest run of visible saves within the capacity: it ends only at its capacity, at another command, which is stashed, or where nothing more is visible; nothing else is taken |
| SaveWorker.MemoryWorker.FailInvalid | crates/lvu-app/src/memory.rs:1209-1245 | refused requests and the keys withheld behind them fail together |
| SaveWorker.MemoryWorker.CommitItems | crates/lvu-app/src/memory.rs:1253-1258 | each surviving request commits or is refused on its own, in order, with the store's verdict |
| SaveWorker.MemoryWorker.Acknowledge | crates/lvu-app/src/memory.rs:1258-1330 | guards, failures and answers after the store has spoken |
| SaveWorker.MemoryWorker.Persist | crates/lvu-app/src/memory.rs:1107-1332 | serving a batch is one batch step of the specification |
| SaveWorker.MemoryWorker.FlushFailure | crates/lvu-app/src/memory.rs:968-975 | a failure that is not a store refusal is reported before any refusal |
| SaveWorker.MemoryWorker.ServeNext | crates/lvu-app/src/memory.rs:1001-1018 | serving the next command is one step of the specification with the store it was given, and consumes exactly it and all the saves visible behind it |
| SaveWorker.MemoryWorker.Loop | crates/lvu-app/src/memory.rs:1001-1512 | the whole loop is a run of the specification over the queue it started with, each step with its own store and each batch as long as its capacity and what was visible allow |
| ColorRules.SplitThenMerge | crates/lvu-app/src/memory.rs:1628-1657 | splitting and merging gives back the kept rules in order, each in canonical form |
| ColorRules.RoundTripExactly | crates/lvu-app/src/memory.rs:1826-1868 | the round trip is exact if and only if the kept rules are normalised |
| ColorRules.LegacyRulesSurvive | crates/lvu-app/src/memory.rs:1826-1868 | for arbitrary stored lists, legacy rules keep their order and only the final cap can drop one |
| ColorRules.ClaimedSlot | crates/lvu-app/src/memory.rs:1835-1848 | whatever is stored, the first classifier of a position stands in the merged list at that position less the slots before it that nothing is left for |
| ColorRules.FreeSlot | crates/lvu-app/src/memory.rs:1849-1862 | whatever is stored, the n-th unclaimed position gets the n-th legacy rule |
| ColorRules.MergedSize | crates/lvu-app/src/memory.rs:1863-1868 | nothing else is in the merged list, and the restored one is its first 16 |
| ColorRules.SortKeepsClaims | crates/lvu-app/src/memory.rs:1830-1831 | sorting the classifiers does not change which of them claims a position |
| ColorRules.Place | crates/lvu-app/src/memory.rs:1835-1848 | the first classifier of a position holds its slot |
| ColorRules.Pour | crates/lvu-app/src/memory.rs:1849-1862 | legacy rules fill the empty slots in order |
| ColorRules.MergeColorRules | crates/lvu-app/src/memory.rs:1826-1868 | the in-place merge computes the specified list |
| EnrichRunner.CommandEnricher.RunBatchInMemory | crates/lvu-command-enrich/src/lib.rs:336-345 | over the ledger: what is admitted is granted, the payload is delivered exactly when the batch is admitted and not stopped before, and no store error is ever reported |
| EnrichRunner.RunAllInMemory | crates/lvu-command-enrich/src/lib.rs:87-131 | over any run of batches on one ledger each batch delivers exactly its admitted records or nothing, no record is delivered twice, each is unattempted before its batch and attempted after it, and the capacity is kept |
| AttemptStore.AttemptLedger.Reserve | crates/lvu-command-enrich/src/lib.rs:116-130 | reservation is all or nothing, only grows the attempted set and keeps its capacity |
| AttemptStore.DurableStore.Reserve | crates/lvu-memory/src/store.rs:2784-2836 | granted exactly when there is room and no record was attempted; a failed call reserved all or nothing |
| AttemptStore.Encode | crates/lvu-memory/src/store.rs:2853-2864 | accepted exactly when every result is within the limits on fields, names, bytes and diagnostics and all together within the limit of a batch |
| AttemptStore.DurableStore.Complete | crates/lvu-memory/src/store.rs:2838-2907 | completes exactly an open reservation with the results of its own records, all storable; results replace exactly that reservation, once, and a refusal changes nothing |
| AttemptStore.DurableStore.Lookup | crates/lvu-memory/src/store.rs:2909-2945 | the state of every record in order, refused exactly when they exceed the limit together |
| AttemptStore.LookupBytesAreTheRows | crates/lvu-memory/src/store.rs:2929-2937 | what a lookup of distinct records adds up are the sizes of the rows they have |
| AttemptStore.InsertKeepsConsistent | crates/lvu-memory/src/store.rs:2818-2836 | a record is reserved by a batch exactly while that batch owes its result |
| AttemptStore.CompleteKeepsConsistent | crates/lvu-memory/src/store.rs:2881-2907 | completing a batch keeps that, and changes only rows the batch reserved |
| EnrichBatch.Converse | crates/lvu-command-enrich/src/lib.rs:591-899 | the batch is poisoned unless the child held a valid conversation, in either form, and then the outcomes are its answers |
| EnrichBatch.Pass | crates/lvu-command-enrich/src/lib.rs:593-862 | one pass of the loop stops, finishes or goes on exactly as the conversation's rules say |
| EnrichBatch.HearReply | crates/lvu-command-enrich/src/lib.rs:738-813 | an answer counts only when it is in session, asked for, and the first to its record |
| EnrichBatch.ExactlyOneReplyEach | crates/lvu-command-enrich/src/lib.rs:687-813 | in a valid conversation every record asked about has exactly one answer, and no other record any |
| EnrichBatch.CleanRunGoesOn | crates/lvu-command-enrich/src/lib.rs:593-737 | a valid conversation is in good order at every point before its end |
| EnrichBatch.CleanRunIsUnique | crates/lvu-command-enrich/src/lib.rs:715-737 | a script of polls holds at most one valid conversation |
| EnrichBatch.CleanRunExactly | crates/lvu-command-enrich/src/lib.rs:593-862 | a valid conversation, said without its steps: silence and answers in session to records asked about, each answered once and all of them, then the completion frame, nothing cancelled, late or refused before it was written, within the output limit |
| EnrichBatch.AnsweredMeaning | crates/lvu-command-enrich/src/lib.rs:786-813 | an answer is ready if and only if its fields are neither protected nor among the input's |
| EnrichRunner.DeliveryOnce | crates/lvu-command-enrich/src/lib.rs:444-462 | the payload names no record twice |
| EnrichRunner.DeliveryMembers | crates/lvu-command-enrich/src/lib.rs:444-462 | the payload holds exactly the admitted records of the caller |
| EnrichRunner.DeliveryInOrder | crates/lvu-command-enrich/src/lib.rs:444-462 | the payload is the admitted records at their places, in the caller's order |
| EnrichRunner.Admit | crates/lvu-command-enrich/src/lib.rs:366-508 | exactly when a batch goes on to reservation, and that it then asks for all records never attempted |
| EnrichBatch.AttemptOfStorable | crates/lvu-app/src/command_execution.rs:332-360 | diagnostics are cut so that the store never turns a single result down for them: only fields decide |
| EnrichBatch.HarvestMeaning | crates/lvu-app/src/command_execution.rs:259-281 | a valid answer makes a ready result with its fields if allowed and a failure otherwise, and the store takes it if it takes the fields |
| EnrichBatch.CleanResults | crates/lvu-app/src/command_execution.rs:237-286 | after a valid conversation what the store is given is exactly what its answers make of the records |
| EnrichRunner.CommandEnricher.RunReserved | crates/lvu-command-enrich/src/lib.rs:509-899 | from reservation to durable outcome: the whole payload is delivered unless the batch is stopped before; earned results only; if nothing outside fails, after a valid conversation all of them or, if the store does not take them together, none and a store error |
| EnrichRunner.CommandEnricher.Offer | crates/lvu-command-enrich/src/lib.rs:509-518 | a reservation error of either kind leads to no delivery |
| EnrichRunner.CommandEnricher.RunBatch | crates/lvu-command-enrich/src/lib.rs:347-899 | the payload is delivered exactly when the batch is admitted, granted and not stopped; no attempted record is delivered or changed, delivery is in the caller's order, ready results are earned; unhindered, the batch ends without diagnostics if and only if the conversation is valid and its results storable, then every answer is durable, and a valid one with other results leaves every record reserved and a store error |
| CommandExecution.NeverAttempted | crates/lvu-app/src/command_execution.rs:105-130 | refused exactly when some record has an attempt without a result, naming the first of them; otherwise the unseen records in order |
| CommandExecution.UnseenInOrder | crates/lvu-app/src/command_execution.rs:105-130 | the unseen records are those at the places of records never attempted, in the caller's order |
| CommandExecution.Begin | crates/lvu-app/src/command_execution.rs:78-130 | an execution goes on to its batch exactly when it is not cancelled, its records are acceptable, the lookup answers and none is spoiled; otherwise which error, checked in this order |
| CommandExecution.ValidateInputSize | crates/lvu-app/src/command_execution.rs:289-307 | accepted exactly when the whole input is within the limit |
| CommandExecution.ValidateResultSize | crates/lvu-app/src/command_execution.rs:309-330 | accepted exactly when the whole result is within the limit |
| CommandExecution.Collect | crates/lvu-app/src/command_execution.rs:159-187 | succeeds exactly when every record is ready, with one result each in the caller's order; otherwise the error names the first that is not |
| CommandExecution.Finish | crates/lvu-app/src/command_execution.rs:159-194 | the stored results exactly if the lookup answers, nothing is cancelled, all are ready and keep the limit; otherwise which error |
| CommandExecution.ExecutionSettles | crates/lvu-app/src/command_execution.rs:131-187 | once its batch has run, an execution is going to succeed exactly under the condition, and a valid conversation has made all results durable or, refused, none |
| CommandExecution.ResultLimitSuffices | crates/lvu-memory/src/store.rs:2929-2937 | results within the result limit of an execution are within the store's limits for a batch and for a lookup |
| CommandExecution.Execute | crates/lvu-app/src/command_execution.rs:78-194 | it succeeds if and only if nothing outside fails, no record is spoiled, each is ready already or answered in a valid conversation with allowed and storable fields, and all results keep the limit; then the result is the stored one of every record in order; spoiled attempts stop before delivery; nothing stored changes; new results were earned in this execution, which handed over exactly the unseen records, in order, or nothing; results the store refuses leave every record reserved; every error is told by its cause |
| UnstorableResults.RefusedForGood | crates/lvu-app/src/command_execution.rs:112-128 | whatever happens later, an execution with a record that stayed reserved delivers nothing and does not succeed |
| UnstorableResults.AnswersAreGood | crates/lvu-app/src/command_execution.rs:415-415 | five answers of 230000 characters are a valid conversation, each allowed and storable |
| UnstorableResults.TogetherTooMuch | crates/lvu-memory/src/store.rs:2855-2862 | together they exceed the limit of a batch |
| UnstorableResults.FiveBlobs | crates/lvu-app/src/command_execution.rs:704-715 | with nothing failing outside the execution ends in a runner's error, all five records stay reserved, and any second execution with one of them fails |
| CommandExecution.EveryAttemptHasItsJob | crates/lvu-app/src/command_execution.rs:131-158 | every attempt in a history stems from one earlier execution that found the record unattempted; if ready, it was earned in that execution's conversation and the record was handed over by it |
| CommandExecution.RunAll | crates/lvu-app/src/command_execution.rs:78-194 | over any history of executions: what each hands to the command, exactly, and when each succeeds; at-most-once delivery, each record unreserved before the execution that delivers it and reserved after, capacity kept, no stored state ever changed, every ready result earned in one execution that handed its record over |
| PrefixEncoding.BuildPrefixBytes | crates/lvu-app/src/command_controller.rs:1295-1313 | the building loop computes the specified encoding |
| PrefixEncoding.FieldIsPrefixFree | crates/lvu-app/src/command_controller.rs:1304-1310 | a length-prefixed field can be read off the front of any bytes it starts |
| PrefixEncoding.PrefixBytesInjective | crates/lvu-app/src/command_controller.rs:1287-1313 | two prefixes share their bytes if and only if they are the same triples, for any number of steps |
| Presentation.TotalSplit | crates/lvu-app/src/command_rows.rs:80-85 | the workspace total does not depend on the order publications are summed in |
| Presentation.AdmissionSurvivesReduction | crates/lvu-app/src/command_rows.rs:92-104 | clearing or reconfiguring never takes an admission back |
| Presentation.PublicationBytes | crates/lvu-app/src/command_rows.rs:54-72 | refused exactly beyond 1024 records or 1 MiB |
| Presentation.CommandPresentation.Admit | crates/lvu-app/src/command_rows.rs:93-106 | admitted exactly when the publication and the workspace limit allow it |
| Presentation.CommandPresentation.Publish | crates/lvu-app/src/command_rows.rs:108-127 | published if and only if admitted; a refusal changes nothing; the limits hold |
| Presentation.CommandPresentation.Clear | crates/lvu-app/src/command_rows.rs:130-138 | only the step's own publication goes |
| Presentation.CommandPresentation.Configure | crates/lvu-app/src/command_rows.rs:143-154 | publications of steps that left a chain go, all others stay, exactly |
| CommandApp.DispatchedWasReviewed | crates/lvu-app/src/command_controller.rs:415-461 | every dispatched save was frozen, presented under a token and started with it, in this order and with one capture |
| CommandApp.DispatchedPrefixIsFrozen | crates/lvu-app/src/command_controller.rs:1282-1325 | the chain prefix at dispatch is the frozen one, step by step, unless the UUID of two encodings collides |
| CommandApp.RunFinishes | crates/lvu/src/components/external_command.rs:784-836 | the end of a run is shown exactly by a dialog that runs or saves the same definition, and only if the run was pending and the definition still is the one it ran |
| CommandApp.ReviewFinishes | crates/lvu/src/components/external_command.rs:752-782 | a review is shown exactly by the dialog that still prepares the same definition |
| CommandController.CommandController.Cancel | crates/lvu-app/src/command_controller.rs:288-314 | a queued save is withdrawn, one in flight is not |
| CommandController.CommandController.PrepareRun | crates/lvu-app/src/command_controller.rs:315-414 | a run is prepared exactly when nothing else is going on and the saved definition is the one asked for, with the capture of the present chain |
| CommandController.CommandController.Execute | crates/lvu-app/src/command_controller.rs:415-503 | a run starts exactly from the presented review with the same token while its fence holds |
| CommandController.CommandController.PollPreparing | crates/lvu-app/src/command_controller.rs:556-626 | a review is shown exactly if it was not cancelled, its fence holds and its dialog still waits |
| CommandController.CommandController.PollExecuting | crates/lvu-app/src/command_controller.rs:627-746 | a result is queued for saving exactly if wanted, fenced and admissible |
| CommandController.CommandController.PollRestoring | crates/lvu-app/src/command_controller.rs:747-806 | a restored publication is shown exactly while the view still refers to it and it fits |
| CommandController.CommandController.ReconcileReady | crates/lvu-app/src/command_controller.rs:815-845 | a review is dropped exactly when its fence or its dialog is gone |
| CommandController.CommandController.DispatchPersistence | crates/lvu-app/src/command_controller.rs:999-1106 | a save is dispatched exactly with its dialog running, its fence holding and no other save of the view in flight, and differs from the present state in one reference |
| CommandController.CommandController.HandleMemoryEvent | crates/lvu-app/src/command_controller.rs:1108-1227 | an awaited acknowledgement publishes without fail if the reference can still be attached; otherwise reference and publication stay |
| CommandController.CommandController.SyncStep | crates/lvu-app/src/command_controller.rs:918-957 | a step's publication is reloaded only when its reference changed and cleared only when it has none |
| CommandController.CommandController.Forget | crates/lvu-app/src/command_controller.rs:880-915 | steps that left a chain lose publication and queued restores; what stays queued is current |
| CommandController.CommandController.SyncRestores | crates/lvu-app/src/command_controller.rs:847-997 | the observed references, the queue and the publications are brought up to date with the chains: what is observed is of present steps and is their reference unless the queue is full, what is queued is wanted and in order of arrival, steps whose reference went are cleared and steps that left a changed chain are dropped; when nothing is going on the first queued restore is taken and, if it decodes, started |
| CommandController.CommandController.FollowViews | crates/lvu-app/src/command_controller.rs:847-957 | one pass over the views brings the observed references, the queue and the publications up to date with the chains |
| CommandController.FollowingIsUpToDate | crates/lvu-app/src/command_controller.rs:847-957 | following every step of every chain leaves nothing behind: every step of every chain has been seen with its present reference unless the queue is full |
| CommandController.DepartedStepsAreDropped | crates/lvu-app/src/command_controller.rs:902-915 | every publication shown is of a present step if and only if the chains have changed or all were of present steps before |
| CommandController.UnreferredStepsAreCleared | crates/lvu-app/src/command_controller.rs:918-957 | no step without a reference is shown if and only if none was shown that was known to have none |
| CommandController.DepartedStepStays | crates/lvu-app/src/command_controller.rs:902-915 | a run after which a step that left its chain is still shown |
| CommandController.PollWorker | crates/lvu-app/src/command_controller.rs:556-806 | each answer of the worker goes to the operation under way and does what that operation says; with no answer nothing changes |
| CommandController.OneTick | crates/lvu-app/src/command_controller.rs:177-287 | one tick hears the worker, drops a stale review, follows the views and dispatches a pending save, with all that each of them promises |
| CommandController.CommitTouchesOneStep | crates/lvu/src/app.rs:4360-4385 | attaching a durable result changes the reference of its own step and of no other |
| CommandController.ReferenceIsLastGood | crates/lvu-app/src/command_controller.rs:1108-1227 | for as long as the user does not edit, a step has the reference it started with or that of a save attached since |
| CommandController.Run | crates/lvu-app/src/command_controller.rs:177-179 | in every reachable state the limits hold, the history is sound, and no operation is active beside a pending save; at every input but a user's edit, references change only by an acknowledged save that attaches |
| BridgeSessions.StartsArePreparingOrPending | bridge/src/bridge.ts:142-173 | the reservations counted are the create records kept, the starts that have none yet and the resumes at work |
| BridgeSessions.Bridge.Start | bridge/src/bridge.ts:142-155 | a start is accepted exactly while there is room, and an early failure gives its reservation back |
| BridgeSessions.Bridge.Prepared | bridge/src/bridge.ts:156-171 | a failed preparation gives the reservation back, a finished one passes it to the create record |
| BridgeSessions.Bridge.CreateSettled | bridge/src/bridge.ts:178-202 | what a create that answered in time does to sessions and reservations |
| BridgeSessions.Bridge.Activated | bridge/src/bridge.ts:195-211 | a ledger failure after the create leaves the reservation with the record |
| BridgeSessions.Bridge.LateSettled | bridge/src/bridge.ts:240-249 | a late refusal is released, a late agent goes to cleanup |
| BridgeSessions.Bridge.CleanupRefreshed | bridge/src/bridge.ts:250-257 | an agent not confirmed to have stopped keeps its reservation |
| BridgeSessions.Bridge.LateArchived | bridge/src/bridge.ts:259-263 | the reservation of a late agent goes back only once it is archived |
| BridgeSessions.Bridge.Resume | bridge/src/bridge.ts:363-374 | a resume reserves exactly when it joins neither a session nor another resume |
| BridgeSessions.Bridge.ResumeFinished | bridge/src/bridge.ts:376-401 | however a resume ends, its reservation goes back |
| BridgeSessions.Bridge.RecoverAttach | bridge/src/bridge.ts:520-524 | recovery attaches an agent only while there is room |
| BridgeSessions.LiveAgentsBounded | bridge/src/bridge.ts:240-271 | agents made and not archived never exceed the session limit: late, abandoned and half-created ones included, and those given up at shutdown |
| BridgeSessions.Run | bridge/src/bridge.ts:142-271 | at every await point reservations are the kept create records plus preparing starts plus resumes at work, and sessions plus reservations keep the limit, as do the agents not archived |
| BridgeTurns.Session.BeginTurn | bridge/src/bridge.ts:273-291 | a turn begins exactly on an open, idle, admitted session, and never on a closing one |
| BridgeTurns.Session.RunSettled | bridge/src/bridge.ts:294-303 | the settlement of a superseded run changes no flag, and what that of the newest one changes |
| BridgeTurns.Session.Update | bridge/src/bridge.ts:425-434 | the whole new state: an update ends no turn whose cancellation is awaited, nor one whose settlement is unless cleanup waits for an update, and starts an archive exactly then |
| BridgeTurns.Session.Cancel | bridge/src/bridge.ts:330-340 | at most one cancellation is under way, and only for a remote turn |
| BridgeTurns.Session.CancelAnswered | bridge/src/bridge.ts:341-360 | a confirmed cancellation advances the generation; any answer frees the session |
| BridgeTurns.Session.CancelLate | bridge/src/bridge.ts:346-351 | a late answer is for the current generation, or finds a session that is gone |
| BridgeTurns.Session.ScheduleArchive | bridge/src/bridge.ts:466-484 | at most one scheduled archive task, and the session stays closing |
| BridgeTurns.Session.CloseRefreshed | bridge/src/bridge.ts:86-94 | shutdown archives only an agent confirmed to have stopped |
| TurnStates.StaysSound | bridge/src/bridge.ts:281-361 | whatever happens next, no turn is newer than a cancellation under way, an awaited one is of the current generation, a scheduled archive is one task of a session given to cleanup, and an ephemeral session is busy with its unsettled turn or told to clean up after it |
| TurnStates.StepTakesNothingBack | bridge/src/bridge.ts:466-484 | generations only grow and a session that is closing stays closing, whatever happens |
| TurnStates.ClosingStays | bridge/src/bridge.ts:537-539 | from the moment cleanup begins, at every later point of a life the session is closing and a prompt changes nothing |
| TurnLaws.PromptsBeginTurns | bridge/src/bridge.ts:273-291 | for every session, a prompt begins a turn exactly when it is open, idle, admitted, not closing and no cancellation is under way |
| TurnLaws.SettlementIsHeard | bridge/src/bridge.ts:294-303 | for every session, what the settlement of its newest run changes: nothing is awaited any more, a terminal status frees it, an ephemeral one with a stopped agent is archived |
| TurnLaws.SettledTurnFrees | bridge/src/bridge.ts:294-303 | for every session, once its newest turn settles with a terminal status it is free, and the next prompt begins a turn if it may |
| TurnLaws.OldSettlementIsIgnored | bridge/src/bridge.ts:294-303 | for every session, the settlement of a superseded run changes nothing |
| TurnLaws.UpdateIsHeard | bridge/src/bridge.ts:425-434 | for every session, what a status update changes |
| TurnLaws.TerminalUpdateFrees | bridge/src/bridge.ts:425-434 | for every session, a terminal update that nothing is awaited behind frees it, and the next prompt begins a turn if it may |
| TurnLaws.CancelIsAsked | bridge/src/bridge.ts:330-340 | for every session, a cancel request is refused, sent, or over at once |
| TurnLaws.CancellationIsAnswered | bridge/src/bridge.ts:341-361 | for every session, what the answer to a cancellation changes |
| TurnLaws.ConfirmedCancelFrees | bridge/src/bridge.ts:341-361 | for every session, a confirmed cancellation frees it, and the next prompt begins a turn if it may |
| TurnLaws.ArchiveGoesOn | bridge/src/bridge.ts:466-484 | what each stretch of an archive task does next, for every outcome of the one before |
| TurnLaws.ShutdownVisits | bridge/src/bridge.ts:77-99 | what shutdown does with a session, for every session |
| ArchiveRaces.StepLeavesRisk | bridge/src/bridge.ts:425-484 | no event takes a session that is at no risk of two archive tasks into the risk |
| ArchiveRaces.OnlyFromRisk | bridge/src/bridge.ts:425-484 | a run that reaches two archive tasks at once started at risk |
| ArchiveRaces.RiskLeads | bridge/src/bridge.ts:85-96 | from every state at risk some run reaches two archive tasks at once |
| ArchiveRaces.ArchivesTwiceExactly | bridge/src/bridge.ts:436-484 | two of the three archive tasks can come to share an agent if and only if the session is at risk, told by its own flags |
| ArchiveRaces.ShutdownArchivesAlone | bridge/src/bridge.ts:85-96 | once shutdown archives, no second task ever comes if and only if none is scheduled, no update of a live session can schedule one and recovery is past the record |
| ArchiveRaces.ScheduledArchivesAlone | bridge/src/bridge.ts:466-484 | a scheduled task that shutdown has not reached is joined only by recovery's, and can be exactly while that is ahead |
| ArchiveRaces.ResumableNeverTwice | bridge/src/bridge.ts:504-535 | a session that can be resumed is never archived twice at once |
| ArchiveRaces.StartedSessionAtRisk | bridge/src/bridge.ts:191-198 | an ephemeral session that the bridge started can always come to be archived twice at once |
| BridgeTurns.Step | bridge/src/bridge.ts:281-540 | each stretch of code is one step of the state machine and keeps it sound |
| BridgeTurns.Live | bridge/src/bridge.ts:281-540 | over any life of a session: superseded settlements change nothing, an awaited cancellation is for the current generation, closing is final and admits no turn, two archive tasks can still meet exactly at risk, and a risk that is gone stays gone |
| BridgeTurns.ArchivesTwice | bridge/src/bridge.ts:85-96 | a run in which two archive tasks share an agent |
| RecoveryCursor.OwnedSessionLedger.RecoveryBatch | bridge/src/owned_sessions.ts:136-151 | the batch is the rotation after the cursor and the new cursor its last name |
| RecoveryCursor.BatchHolds | bridge/src/owned_sessions.ts:144-146 | a batch holds exactly the names within its size of its start |
| RecoveryCursor.NextStart | bridge/src/owned_sessions.ts:144-147 | the next batch starts where this one ended |
| RecoveryCursor.StartIsLeastAbove | bridge/src/owned_sessions.ts:141-144 | any cursor, listed or not, is followed by the least name above it, and one with none above it by the first |
| RecoveryCursor.VisitedWithin | bridge/src/owned_sessions.ts:141-147 | consecutive batches visit exactly the names within their joint size of the start |
| RecoveryCursor.RecoveryIsFair | bridge/src/owned_sessions.ts:141-147 | from any cursor, m batches of size k visit every name if and only if m*k is at least the number of names |
| Framing.LinesAreTheCut | bridge/src/server.ts:79-101 | lines and tail are the stream cut at its newlines, no byte lost, moved or invented |
| Framing.OneErrorPerLongLine | bridge/src/server.ts:86-98 | one error for each oversize line, and every other nonempty line arrives in order |
| Framing.DeliveredAtEndAnswers | bridge/src/server.ts:30-35 | at the end of input the bytes after the last newline are a line like any other |
| Framing.JsonlServer.Consume | bridge/src/server.ts:79-101 | the state after any chunk is that of the bytes seen, and the frames delivered are those of the finished lines and of one that is already too long |
| Framing.JsonlServer.End | bridge/src/server.ts:30-35 | an unterminated last line has its frame like any other |
| Framing.Serve | bridge/src/server.ts:28-101 | however the bytes were cut, every line that is not empty, the unterminated last one counted, has one frame, in order: an error if it is too long, else the line itself |
| Framing.FirstOversizeEndsReading | crates/lvu-command-enrich/src/lib.rs:1077-1080 | the lines before the first oversize one arrive whole, and nothing after it |
| Framing.StoppedStays | crates/lvu-command-enrich/src/lib.rs:1077-1080 | once a line is known to be too long nothing later in the stream matters |
| Framing.MessagesExactly | crates/lvu-command-enrich/src/lib.rs:1055-1092 | the same for the specified messages of any stream |
| Framing.ReadStdout | crates/lvu-command-enrich/src/lib.rs:1055-1092 | the messages are the whole lines up to what ends the reading: the first line that is too long, an unfinished one that already is, the error, or the end with its unfinished line; however the bytes were cut |
| Writer.BoundedWriter.Send | bridge/src/server.ts:136-144 | a message is written, queued within the limit, or the writer gives up |
| Writer.BoundedWriter.OnDrain | bridge/src/server.ts:130-173 | exactly the part of the backlog up to the first full answer goes out, in order; unblocked means nothing is left |
| Writer.BoundedWriter.Abort | bridge/src/server.ts:175-184 | the backlog is dropped and nothing is written again |
| Writer.BoundedWriter.EndStop | bridge/src/server.ts:146-159 | a shutdown without abort has written everything accepted |
| Writer.Live | bridge/src/server.ts:122-187 | at every point of any run what reached the stream is a prefix of what was offered, until an abort the rest is exactly the backlog, a backlog is within its limit and only there while the stream is full, and nothing is written after an abort |
| InFlight.Dispatcher.Dispatch | bridge/src/server.ts:103-117 | duplicates and full slots are refused exactly; cancellations have slots of their own |
| InFlight.Dispatcher.Settle | bridge/src/server.ts:112-115 | a finished request frees exactly its own slot |
| InFlight.Entering | bridge/src/server.ts:111-116 | an admitted request raises the count of its kind by one and leaves the other kind alone |
| AgentHost.Host.Submit | crates/lvu-app/src/agent.rs:461-520 | an accepted request is pending under the current generation or has failed at once; refusals are exact |
| AgentHost.Host.ProcessLine | crates/lvu-app/src/agent.rs:746-824 | a line settles one request, changes nothing, or ends the generation, which malformed, unknown and wrong-version lines and a critical event that is lost do and no others; a retired generation's lines change nothing |
| AgentHost.Host.Fault | crates/lvu-app/src/agent.rs:854-876 | the current generation ends with all its requests failed; a retired one changes nothing |
| AgentHost.Host.Disconnect | crates/lvu-app/src/agent.rs:878-900 | the same at end of output |
| AgentHost.Host.TimeoutFires | crates/lvu-app/src/agent.rs:638-661 | the request past its deadline times out and the generation ends |
| AgentHost.Host.Terminate | crates/lvu-app/src/agent.rs:902-915 | the generation is retired with all its requests failed |
| AgentHost.Host.Launch | crates/lvu-app/src/agent.rs:560-636 | a new generation starts running, or faulted if the process does not start |
| AgentHost.Host.FailAll | crates/lvu-app/src/agent.rs:936-946 | ending a generation leaves no request behind and fails each of them |
| AgentHost.Run | crates/lvu-app/src/agent.rs:404-421 | over a whole life, with shutdowns that restarts may follow, every accepted request is called back exactly once, pending never exceeds its limit, and retired generations change nothing |
| RoundRobin.RoundsTakePrefixes | python/lvu_expr_helper/inspection.py:479-485 | after r rounds exactly the first r rows of each source are out, in their order |
| RoundRobin.RoundsInOrder | python/lvu_expr_helper/inspection.py:479-485 | a row comes before another exactly by its round, then by its source |
| RoundRobin.Drain | python/lvu_expr_helper/inspection.py:479-485 | every row is taken once, round by round and in the order of the sources within a round, each source's rows in order |
| InspectionDocument.FewerOmittedBytesNoLonger | python/lvu_expr_helper/inspection.py:585-585 | taking bytes off the omitted ones never lengthens the document |
| InspectionAdmission.RemoveUndoesAdd | python/lvu_expr_helper/inspection.py:569-575 | taking an item out again restores list and counters exactly |
| InspectionAdmission.RemoveUndoesAddRow | python/lvu_expr_helper/inspection.py:590-604 | taking a row out again restores rows, counters and its source's count exactly |
| InspectionAdmission.TakenAndLeft | python/lvu_expr_helper/inspection.py:539-575 | sizes of what was taken and what was left add up to the recorded sizes |
| InspectionAdmission.TakenInOrder | python/lvu_expr_helper/inspection.py:564-575 | what was taken stands at the places whose flag is set, in the order of the items |
| InspectionAdmission.TakenBytesAreTheirs | python/lvu_expr_helper/inspection.py:564-575 | the bytes counted as taken are the sizes of the items that are in |
| InspectionAdmission.TakenOfCounts | python/lvu_expr_helper/inspection.py:587-604 | a source's count is the number of taken rows whose last source with their id it is |
| InspectionAdmission.Admit | python/lvu_expr_helper/inspection.py:564-575 | one list is admitted greedily within the limit, each item exactly when the document with it still fitted |
| InspectionAdmission.AdmitRows | python/lvu_expr_helper/inspection.py:587-604 | the same for rows, with each source counting its own |
| Inspection.CorrectionIsAvailableRows | python/lvu_expr_helper/inspection.py:581-585 | the mid-way correction is the number of rows whose schema was admitted, so never negative |
| Inspection.Correct | python/lvu_expr_helper/inspection.py:581-585 | the correction keeps the counter at or above the sizes of all rows, and the document within the limit |
| Inspection.AdmitList | python/lvu_expr_helper/inspection.py:564-580 | within the document: taken plus omitted is the total, and omitted bytes are those of what was left |
| Inspection.AllAreTaken | python/lvu_expr_helper/inspection.py:564-604 | every list is the items whose flag is set in the order they came, every source counts its own taken rows, and every row tells whether a schema of its own is in the document |
| Inspection.Inspect | python/lvu_expr_helper/inspection.py:492-606 | the document is produced exactly when limit, metadata and deadline allow, is within the limit, holds exactly the flagged items in order, conserves counts and bytes in every category, and is greedy throughout |
| Inspection.InspectText | python/lvu_expr_helper/inspection.py:488-606 | the same with the length of the encoded text as the measure |

## Left out

* The mediated save worker (`shared_worker`), which serves saves one at a time, and the receiver going away in the middle of a batch: the modelled worker is the local one, and answers are always heard.
* Store versions and the optimistic check in `save_sources_and_views`: the store is an oracle that accepts or refuses each item. Batched and serial runs may differ in row version numbers; durable content is what is compared.
* The bookmark check above the store is one boolean of a request. Fields of `working_view` and `restored` other than colour rules are copied one by one in the source and not modelled.
* Recipes, derived views, recent sources and loads are commands that succeed or fail; only the recipe failure remembered for Flush is kept.
* EnrichRunner.CommandEnricher.RunBatch: whether the serialised batch fits its byte limit is an input, because it depends on the JSON encoder. How a message quotes a field name is a function of the name that is not modelled, and the limit on a diagnostic's characters is the default one.
* CommandExecution.Execute: other processes do not write to the same scope meanwhile. A text is a sequence of Unicode characters with its UTF-8 length; fields are their names and their encoded text, and that the two belong together is not modelled.
* The bounded tail of a command's standard error is an input, like the messages of the JSON parser and the operating system.
* CommandController: the column updates handed to the view engine and their re-evaluation, and joining worker threads at shutdown. A view's saved and applied chains are one chain here.
* Presentation: the revision counter is unbounded here and wraps in the source; how results are shown in the details pane.
* The name-based UUID over the chain prefix is an uninterpreted function.
* BridgeTurns: events shown to the client. Times are arbitrary: the bounded waits of shutdown and recovery may end at any moment. A record that recovery archives is written to the ledger without the open session hearing of it, as in the source. The ledger may record a failure after an archived state was written, so no finality of ledger states is claimed; nor that a session's cleanup ever succeeds.
* BridgeSessions: `explainCreateFailure`, ledger contents and workspace identity; a deadline that fails with another code than its own, which the promise it guards cannot cause.
* RecoveryCursor: the directory is listed in one step and reading the records of a batch is not modelled.
* Writer: message encoding; the stream's own buffering beyond its yes or no to each write.
* AgentHost.Host.Submit: submission is one step. In the source the generation is read before the request is inserted, so a restart between the two can leave a request that only its receiver's timeout notices; no claim is made about that interleaving. Callbacks of an ending generation run here in the step that takes them, and in the source right after it.
* Proposal validation, request encoding and diagnostics of the agent host; graceful waiting for the child at shutdown.
* Inspection: building the plan, schemas and type conflicts, decoding rows, and `_encode`; items and rows arrive as encoded text, strings as one character per byte.
* RoundRobin: the plan names each source once.
* InFlight: request lines that do not parse, which are answered with an error and take no slot.
* The bounded activity log of owned sessions (`recordActivity`) and workspace placement.
* Schema checks, prompts, protocol definitions, settings, shared keys, unions, time recognition and the expression helper's evaluation.
