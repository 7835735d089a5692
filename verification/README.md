# A verified model of kflow's durable workflow engine

kflow compiles a workflow of named states into a graph and drives it: every state is written ahead to a
store before its handler runs, completed states are answered from the store, failed ones are retried and
then handed to a catch state. This project models that engine in Dafny, with its two stores, its graph
compiler and wire form, the SDK's second interpreter and the callback protocol of container jobs, and
proves what they keep over every run.

## How the model is set up

- **Values.** An input or output map is a finite map of JSON-like values; a nil map and an empty map are
  one value. Errors are data. Timestamps, durations of sleeps and log lines do not occur.
- **Handlers and the dispatcher** answer as they like: each is a function of the number of external calls
  made so far, the state and the input, so a theorem for all of them covers every sequence of successes
  and failures. They do not touch the store; jobs that do are in `RunnerProtocol`.
- **World.** The engine's functions act on a store, the list of external calls and the list of emitted
  transitions. Each call and transition carries what the store said at that moment, so the theorems can
  speak about it.
- **Runs that never return.** `patience` is the number of state boundaries at which the context is still
  alive; a run that loops for ever is one that is cancelled for every patience. `depth` is the number of
  nested catches observed. Theorems quantify over both; no run is excluded.
- **Catch-free** means that no catch can be taken: a state names none, names one without a step, or is a wait,
  which cannot fail.
- **Stores.** `Mem` keeps one record per key `execID:stateName`; `Doc` keeps one document per attempt and
  offloads large outputs to a key/bytes map. JSON is an encode/decode pair, with decode inverting encode
  wherever that matters (`Faithful`).
- **Form.** Where the program works by changing things step by step, the model does too: the stores, the
  executor and the log hub are classes, and the loops of validation, compilation, registration, retries
  and the local interpreter are methods; each is proved equal to the function the theorems are about.

| file | holds |
|---|---|
| `Types`, `Keys` | payloads; record, document and object keys |
| `Stores`, `StoreObjects`, `MongoRefinement` | both stores as step functions, as objects, and their refinement |
| `Workflows`, `Registration` | definitions, validation, graph, wire form |
| `Engine`, `ExecutorObject` | the executor as functions on a world, and as an object with loops |
| `Visits`, `Journal`, `CatchChains`, `Memoisation`, `StoreAgreement` | theorems about the executor |
| `LocalRunner`, `Equivalence` | the SDK's interpreter and its agreement with the engine |
| `RunnerProtocol`, `Names`, `LogHub`, `ProtoValues` | job callbacks, Kubernetes names, log fan-out, value conversion |

## Where the code and its documentation differ

The model follows the code.

- `REFERENCE.md` line 178 calls `kflow.Fail` a terminal failure; a run that reaches it finishes without an
  error (`Journal.SentinelsFinish`).
- `REFERENCE.md` line 90 says retries work on service steps as on inline tasks; a dispatched step is called
  once (`Visits.DispatchIsNotRetried`).
- `REFERENCE.md` line 248 says a catch routes to the handler state; the handler runs, but the loop goes on at
  the failing state's successor (`CatchChains.CatchChainWalk`). The SDK's interpreter does route to it
  (`Equivalence.CaughtRunsPart`).
- `MongoStore.WriteAheadState` reports a repeated attempt as terminal, so a state left unfinished there is
  never executed again, while the memory store runs it again (`StoreAgreement.BlockedExactly`,
  `StoreAgreement.BlockedIsRerunInMemory`).
- A completed record is meant to be final, and is for in-process runs (`Journal.CompletedIsFinal`); reports of
  jobs and a second executor can overwrite it (`RunnerProtocol.CompletedSurvivesExactly`).
- A choice of a sentinel or of the empty name ends the SDK's run well and is an unknown state in the engine; a
  terminal choice ends the engine's run whatever it picked (`Equivalence.TurnsAgreeExactly`).

## Model

| member | source | states |
|---|---|---|
| `Keys.StateKeyInjective` | internal/store/memory_store.go:29-31 | within one execution two states never share a record, whatever characters their names contain |
| `Keys.StateKeyInjectiveAcross` | internal/store/memory_store.go:29-31 | with colon-free execution ids, record keys are equal exactly for the same execution and state |
| `Keys.DocIdInjective` | internal/store/mongo_store.go:558-560 | document ids are equal exactly for the same execution, state and attempt, though state names may contain colons |
| `Keys.ObjectKeyInjective` | internal/store/mongo_store.go:251-251 | offload keys are equal exactly for the same execution, state and attempt, though state names may contain slashes |
| `Keys.KeysSpelledOut` | internal/store/mongo_store.go:251-251 | record keys, document ids and object keys in full, with the attempt in decimal without leading zeros |
| `Keys.ExecutionsCollideExactly` | internal/store/memory_store.go:29-31 | two executions can share a record key, or a document id, if and only if they are the same or one id followed by a colon begins the other |
| `StoreObjects.MemoryStore.constructor` | internal/store/memory_store.go:21-27 | a new memory store is empty |
| `StoreObjects.MemoryStore.WriteAheadState` | internal/store/memory_store.go:70-86 | refused only on a completed record, otherwise the record is replaced by a pending one; the new map is the store's step |
| `StoreObjects.MemoryStore.MarkRunning` | internal/store/memory_store.go:88-99 | the record becomes Running, or is reported missing |
| `StoreObjects.MemoryStore.CompleteState` | internal/store/memory_store.go:101-113 | the record becomes Completed with the output, whatever its status was |
| `StoreObjects.MemoryStore.FailState` | internal/store/memory_store.go:115-127 | the record becomes Failed with the message, whatever its status was |
| `StoreObjects.MemoryStore.GetStateOutput` | internal/store/memory_store.go:129-145 | the entry-by-entry copy equals the stored output; missing and unfinished records are told apart |
| `StoreObjects.MongoStore.constructor` | internal/store/mongo_store.go:51-55 | a new document store has no documents and no objects |
| `StoreObjects.MongoStore.FindLatest` | internal/store/mongo_store.go:329-335 | any scan order finds the document with the highest attempt, or that there is none |
| `StoreObjects.MongoStore.WriteAheadState` | internal/store/mongo_store.go:177-216 | refused on any completed document of the state and on a repeated attempt, otherwise a pending document is inserted |
| `StoreObjects.MongoStore.MarkRunning` | internal/store/mongo_store.go:218-223 | only the latest attempt's document changes |
| `StoreObjects.MongoStore.FailState` | internal/store/mongo_store.go:267-273 | only the latest attempt's document changes |
| `StoreObjects.MongoStore.CompleteState` | internal/store/mongo_store.go:225-265 | inline up to 1 MiB, otherwise offloaded under the latest attempt's key, or refused without an object store |
| `StoreObjects.MongoStore.GetStateOutput` | internal/store/mongo_store.go:275-311 | the latest attempt's output, following a reference when it has that shape |
| `StoreObjects.StoreHandle.Perform` | internal/store/store.go:57-62 | a call through the interface is the step of the store behind it, whichever it is |
| `Stores.IndexOfSlash` | internal/store/mongo_store.go:317-317 | the index of the first slash, or -1 exactly when there is none |
| `MongoRefinement.ExtractInvertsExactly` | internal/store/mongo_store.go:314-322 | the object key is recovered from its reference exactly when the bucket name has no slash |
| `MongoRefinement.LatestUnderUpdate` | internal/store/mongo_store.go:326-354 | changing a document without its identity changes no state's latest attempt |
| `MongoRefinement.LatestUnderInsert` | internal/store/mongo_store.go:197-215 | an inserted attempt becomes the latest of its state exactly when it exceeds the others, and affects no other state |
| `MongoRefinement.MistakableIsLost` | internal/store/mongo_store.go:294-309 | an inline output of the shape `{"_ref": text}` is never given back, because every object is larger than it |
| `MongoRefinement.KeptOutputReads` | internal/store/mongo_store.go:294-310 | an output held inline or by reference to its own object is read back as it was |
| `MongoRefinement.RefusedChangesNothing` | internal/store/mongo_store.go:177-354 | an operation refused by either store has changed nothing |
| `MongoRefinement.AcceptedWriteAhead` | internal/store/memory_store.go:70-86 | on either store an accepted write-ahead files the attempt as pending with its input, no output and no error, whatever was there before |
| `MongoRefinement.WriteAheadRefusal` | internal/store/mongo_store.go:177-216 | a write-ahead is refused in one way only, as terminal |
| `MongoRefinement.RefShapedExactly` | internal/store/mongo_store.go:294-297 | an output is taken for a reference if and only if its one entry is a `_ref` text that is not empty |
| `MongoRefinement.DereferenceFailsExactly` | internal/store/mongo_store.go:294-309 | following a reference fails only for a missing object or object store, exactly when it is missing, and never in decoding |
| `MongoRefinement.EmptyStoresRelated` | internal/store/mongo_store.go:51-55 | the refinement relation holds of two empty stores |
| `MongoRefinement.CompletedOnBothOrNeither` | internal/store/mongo_store.go:180-195 | since only the latest attempt can be completed, the two write-ahead guards agree |
| `MongoRefinement.WriteAheadKeepsStep` | internal/store/mongo_store.go:177-216 | a write-ahead that raises the attempt, or meets a completed state, is answered alike and keeps the relation |
| `MongoRefinement.WriteAheadFallsOut` | internal/store/mongo_store.go:208-212 | one that does not raise the attempt is answered differently or read back differently afterwards |
| `MongoRefinement.MarkOrFailKeepsStep` | internal/store/mongo_store.go:218-273 | marking and failing are always answered alike and keep the relation |
| `MongoRefinement.CompleteKeepsStep` | internal/store/mongo_store.go:225-265 | completing with a storable, unmistakable output keeps the relation, across all executions' objects |
| `MongoRefinement.CompleteFallsOut` | internal/store/mongo_store.go:225-265 | completing with any other output does not |
| `MongoRefinement.GetOutputKeepsStep` | internal/store/mongo_store.go:275-311 | related stores return the same outputs and the same errors |
| `MongoRefinement.InStepExactlyWhenAdmissible` | internal/store/mongo_store.go:177-354 | from related stores, an operation gets the same reply from both and leaves them related if and only if it is admissible |
| `MongoRefinement.MongoRefinesMemory` | internal/store/mongo_store.go:177-354 | over every sequence of admissible operations on any executions and states, the document store replies exactly as the memory store and stays related to it |
| `MongoRefinement.OffloadRoundTripExactly` | internal/store/mongo_store.go:225-322 | complete then read returns the output, on either side of 1 MiB, if and only if it is not an inline output shaped like a reference |
| `Workflows.AssembledIsWellBuilt` | pkg/kflow/workflow.go:17-164 | every sequence of registrations, flows, images and setters of states and steps leaves tasks filed under their own names and names in step with tasks |
| `Workflows.CallWritesExactly` | pkg/kflow/workflow.go:95-163 | a setter writes its own setting of its own step or state and leaves every other as it was |
| `Workflows.CallReplacesExactly` | pkg/kflow/workflow.go:25-69 | a registration starts from the defaults with the kind, handler and duration it was given; flow and image are taken over |
| `Workflows.LastWriterDecides` | pkg/kflow/workflow.go:95-163 | over any sequence of builder calls the last writer of a successor, catch, retry, end marker or target decides it |
| `Workflows.Validate` | pkg/kflow/validate.go:16-59 | accepts exactly the workflows satisfying the four rules, and each error exactly when its rule is the first violated |
| `Workflows.CompileStep` | internal/engine/graph.go:47-68 | the node of a step, with step-level catch and retry before task-level ones and sentinels terminal |
| `Workflows.Build` | internal/engine/graph.go:28-77 | builds exactly the valid workflows whose steps all resolve, into the graph of their steps; otherwise names the first step that does not |
| `Workflows.TaskStatesHaveOneHandler` | pkg/kflow/validate.go:32-43 | in a buildable workflow every task state of the graph has exactly one of an inline handler and a service target |
| `Workflows.NodesOfLastStep` | internal/engine/graph.go:36-74 | a name is a node exactly when it has a step, and the last step of that name decides the node |
| `Workflows.BuiltGraphIsWellNamed` | internal/engine/graph.go:69-73 | nodes are filed under their own names and the entry exists |
| `Registration.ToRegister` | pkg/kflow/graph_json.go:38-86 | the loops produce the wire form: one state per registered step, all steps, whole wait seconds |
| `Registration.SecondsOfNanos` | pkg/kflow/graph_json.go:62-64 | a second is a billion nanoseconds, truncated toward zero |
| `Registration.WireDescribes` | pkg/kflow/graph_json.go:42-84 | one description per step, in order, with name, target, catch, kind name and whole wait seconds of its task, and the workflow's name and image |
| `Registration.BuildFromProto` | internal/engine/graph.go:90-127 | builds exactly when the relayed workflow is buildable, into its graph |
| `Registration.RelayedIsRelay` | pkg/kflow/graph_json.go:42-76 | the control plane's copy registers the steps' states in order and keeps the steps |
| `Registration.CarriedIsBuildable` | internal/engine/graph.go:90-127 | a workflow the wire form can carry is accepted again |
| `Registration.SameNodeExactly` | internal/engine/graph.go:95-123 | one step's node reads the same on both sides if and only if the wire carries the step |
| `Registration.RegistrationPreservesMeaningExactly` | internal/engine/graph.go:86-127 | the registered graph has the same entry, nodes, next, catch, retry, terminal flags, kinds, targets and waits if and only if step names are distinct and each step has no retry and no choice, no service target outside waits, whole-second waits, an end marker only on success, and targets with steps |
| `Visits.Tries` | internal/engine/executor.go:150-181 | the number of handler calls: all but the last fail, and the last succeeds unless attempts ran out |
| `Visits.AttemptsOnMemory` | internal/engine/executor.go:137-184 | the whole retry loop in closed form: calls, transitions, record and answer |
| `Visits.VisitOnMemory` | internal/engine/executor.go:66-122 | a completed state is answered from the store and changes nothing; any other is worked and only its own record changes |
| `Visits.RetryAccounting` | internal/engine/executor.go:137-184 | exactly min(first success, max(1, MaxAttempts)) calls, numbered from 1, and the record ends with the last attempt's output or error |
| `Visits.DispatchIsNotRetried` | internal/engine/executor.go:102-103 | a dispatched service step is called exactly once, on its target with its input, whatever its retry policy |
| `Journal.RunFromKeeps` | internal/engine/executor.go:33-60 | whatever a single visit keeps, a whole run keeps, through catches |
| `Journal.RunsKeep` | internal/engine/executor.go:28-64 | and so does any number of runs, with any handlers, graphs and inputs |
| `Journal.WriteAheadDiscipline` | internal/engine/executor.go:75-106 | at every external call of every run the store holds the state as Running with exactly that call's input and attempt |
| `Journal.PhaseIsWord` | internal/engine/executor.go:193-198 | a state's transitions in any phase are k failed rounds and then exactly what that phase adds |
| `Journal.EventStreamIsFaithful` | internal/engine/executor.go:94-122 | over any number of runs each transition reports the change just stored, each state's word is (Pending→Running, Running→Failed)* optionally ended by a completed round, and its end is the stored status |
| `Journal.FreshExecution` | internal/store/memory_store.go:70-86 | an execution without records satisfies the two preceding invariants |
| `Journal.CompletedIsFinal` | internal/store/memory_store.go:74-78 | a completed record survives every later in-process run unchanged |
| `Journal.OtherExecutionsUntouched` | internal/store/memory_store.go:70-127 | runs of one colon-free execution change no record of another |
| `Journal.OnlyHandlerErrorsRaised` | internal/engine/executor.go:66-135 | on the memory store a state raises handler errors only, never store errors |
| `Journal.RunEndsAsExpected` | internal/engine/executor.go:28-64 | with successors that have steps, a run ends by success, cancellation, a handler error or an unknown choice key, never by a store error or a missing successor |
| `Journal.TargetsWithStepsCloseTheGraph` | internal/engine/graph.go:42-45 | successors that have steps are in the graph |
| `Journal.StrandedExactly` | internal/engine/graph.go:142-145 | a node can strand a run if and only if it is neither terminal nor a choice and its successor has no step |
| `Journal.SentinelsFinish` | internal/engine/graph.go:129-132 | a step to either sentinel, Succeed or Fail, ends a run without an error |
| `Journal.MissingEntryFinishes` | internal/engine/executor.go:30-33 | a graph without its entry node is run to its end at once |
| `Journal.StoreErrorsStopTheRun` | internal/engine/executor.go:83-122 | on either store a store error stops the run with that very error and no catch sees it |
| `Journal.RetryAnswersHonestly` | internal/engine/executor.go:150-183 | on either store an output is the last call's, a handler error that of the last allowed attempt, and a store error ended the loop before that |
| `CatchChains.InputAt` | internal/engine/executor.go:200-207 | the catch input is the original input with the latest message under `_error` and nothing else changed |
| `CatchChains.WaitsDoNotFail` | internal/engine/executor.go:99-101 | a wait always yields an output without a call, so no catch follows it |
| `CatchChains.SettlesExactlyWhenChainEnds` | internal/engine/executor.go:117-135 | a state settles within a depth for all handlers and stores if and only if its catch chain ends within that depth |
| `CatchChains.SettledIsStable` | internal/engine/executor.go:117-135 | once settled, observing more depth changes nothing |
| `CatchChains.RankBoundsChain` | internal/engine/executor.go:124-131 | with acyclic catches the rank bounds the recursion |
| `CatchChains.ChainEndsWithinNodeCount` | internal/engine/executor.go:124-131 | a chain that ends does so within as many catches as there are nodes |
| `CatchChains.RecursionIsWalk` | internal/engine/executor.go:66-135 | the recursion equals a walk along the chain to the first success or uncaught failure |
| `CatchChains.CatchChainWalk` | internal/engine/executor.go:40-59 | and `Run` then continues at the originally failing node's successor with the recovery output |
| `CatchChains.ChainOf` | internal/engine/executor.go:124-131 | an ending catch relation has a chain from the state to one no catch can follow, no longer than the bound |
| `CatchChains.AcyclicCatchesWalk` | internal/engine/executor.go:28-135 | end to end: with acyclic catches executing a state is the walk along its own chain, no longer than its rank; the run goes on from the state itself with the recovery output, or stops with the last handler error |
| `CatchChains.ChoiceGoesWhereItSays` | internal/engine/executor.go:46-59 | at a choice the run goes on at the state its output names, whichever state of its catch chain produced the output; a name without a node, or no name, stops it as an unknown state, and the choice's own successor plays no part |
| `CatchChains.RecoveredChoiceIsLost` | internal/engine/executor.go:117-135 | a failed choice whose catch recovers without naming a state still ends the run with an unknown-state error, after the catch completed |
| `CatchChains.CatchInputs` | internal/engine/executor.go:124-131 | every call made by a state and its catches carries the state's input up to `_error`, for any graph |
| `Memoisation.MemoHit` | internal/engine/executor.go:83-89 | a completed state yields its stored output and leaves the world alone |
| `Memoisation.OutputIsStored` | internal/engine/executor.go:108-115 | where no catch can be taken, the output a state yields is the one stored for it |
| `Memoisation.OnlyTheProducerCompletes` | internal/engine/executor.go:108-135 | executing a state with its catches completes exactly the state that produced the output, with that output, for any catch relation |
| `Memoisation.RunIsOrbit` | internal/engine/executor.go:33-60 | a run's path, where no catch can be taken, follows, step by step, from what the final store holds |
| `Memoisation.RevisitNeverReturns` | internal/engine/executor.go:33-60 | a catch-free run that visits a state twice is periodic from there and can only be cancelled |
| `Memoisation.ReturningRunVisitsOnce` | internal/engine/executor.go:33-60 | a catch-free run that returns visits distinct states, at most one iteration per node |
| `Memoisation.OverlongRunNeverReturns` | internal/engine/executor.go:33-60 | one still going after more iterations than nodes never returns |
| `Memoisation.CancelAndResume` | internal/engine/executor.go:33-38 | cancelled at any boundary that no catch helped to reach and run again, a run ends in the world, path and result of the uninterrupted one |
| `Memoisation.CatchFreeOwnsOutputs` | internal/engine/executor.go:117-135 | where no catch can be taken, no catch helps to reach any boundary |
| `Memoisation.ResumeIsTransparent` | internal/engine/executor.go:28-64 | so for `Run` on a compiled workflow in which no catch can be taken, at every cut |
| `Memoisation.CompletedStateIsNeverCalled` | internal/engine/executor.go:83-89 | no later in-process run calls a completed state, catches included |
| `Memoisation.ReplayIsFreeExactly` | internal/engine/executor.go:83-89 | executing a state again leaves the world alone if and only if the state is completed |
| `Memoisation.ReplayTransparentExactly` | internal/engine/executor.go:83-135 | executing a state again gives the same result and changes nothing if and only if the state itself, not one of its catches, produced the output; cyclic catches included |
| `StoreAgreement.TwinVisit` | internal/engine/executor.go:66-122 | a visit of a state that is new or completed does the same on both stores, retries included |
| `StoreAgreement.SameRunOnBothStores` | internal/engine/executor.go:28-64 | a run in which no catch can be taken makes the same calls and transitions, takes the same path and ends alike on both stores |
| `StoreAgreement.MongoMemoHit` | internal/engine/executor.go:83-89 | the document store too answers a completed state without any change |
| `StoreAgreement.MongoCancelAndResume` | internal/engine/executor.go:33-38 | cancel and resume ends in the very documents, objects, calls, transitions, path and result of the uninterrupted run on the document store too |
| `StoreAgreement.CompletesExactlyWhenStorable` | internal/store/mongo_store.go:225-265 | a completion of a state on file is accepted, and completes it, if and only if the output can be stored; a refused one leaves the store as it was |
| `StoreAgreement.KeptExactlyWhenStorable` | internal/engine/executor.go:108-115 | an accepted visit whose work succeeded yields its output and completes the state if and only if the output can be stored; otherwise it breaks as too large or not encodable and the state stays uncompleted |
| `StoreAgreement.BlockedExactly` | internal/store/mongo_store.go:177-216 | a visit is refused as terminal and then found not completed, without a call or a change, if and only if the first attempt is on file and no attempt is completed |
| `StoreAgreement.BlockedIsRerunInMemory` | internal/store/memory_store.go:70-86 | where the document store is blocked the memory store starts the state again and calls its handler |
| `StoreAgreement.VisitsAgreeExactlyWhenSettled` | internal/engine/executor.go:83-89 | with first attempts on file, the two stores answer a visit alike and stay related if and only if the state is new or completed |
| `ExecutorObject.Executor.constructor` | internal/engine/executor.go:19-26 | a new executor has made no calls and emitted nothing |
| `ExecutorObject.Executor.Start` | internal/engine/executor.go:91-94 | marks running, then emits; nothing is emitted on refusal |
| `ExecutorObject.Executor.RecordFailure` | internal/engine/executor.go:119-122 | fails the record, then emits |
| `ExecutorObject.Executor.RecordCompletion` | internal/engine/executor.go:109-112 | completes the record, then emits |
| `ExecutorObject.Executor.ApplyRetry` | internal/engine/executor.go:137-184 | the loop over attempts equals the retry function, store errors included |
| `ExecutorObject.Executor.Work` | internal/engine/executor.go:96-106 | sleep, dispatch or retried handler, as the engine's function |
| `ExecutorObject.Executor.Visit` | internal/engine/executor.go:66-122 | the step-by-step state execution equals the engine's visit |
| `ExecutorObject.Executor.ExecuteState` | internal/engine/executor.go:66-135 | the recursion through catches equals the engine's function, to any depth, for any catch relation |
| `ExecutorObject.Executor.Run` | internal/engine/executor.go:28-64 | the loop updating node and current input equals the engine's run, path included, on either store |
| `LocalRunner.BuildLocalGraph` | pkg/kflow/graph_json.go:103-141 | builds exactly the workflows with steps that are all registered |
| `LocalRunner.LocalNodesAreStripped` | pkg/kflow/graph_json.go:111-140 | the local graph is the compiled graph without terminal flags |
| `LocalRunner.RunWithRetry` | pkg/kflow/graph_json.go:212-236 | the loop calls until the first success or the last attempt |
| `LocalRunner.RunLocalGraph` | pkg/kflow/graph_json.go:143-179 | the loop equals the recursive interpreter, catches and lost states included |
| `LocalRunner.CaughtInput` | pkg/kflow/graph_json.go:153-158 | a failure with a catch goes on at the catch state with the failing state's input, the message under `_error` and nothing else changed |
| `LocalRunner.LocalChoiceGoesWhereItSays` | pkg/kflow/graph_json.go:163-177 | at a choice the SDK ends well on the empty name and on a sentinel, goes on at a state of the graph, and fails otherwise |
| `Equivalence.SameRetries` | pkg/kflow/graph_json.go:212-236 | the SDK's retry loop makes as many calls as the engine's and returns the same answer |
| `Equivalence.InlineStatesAgree` | internal/local/runner.go:46-67 | on an uncompleted state with an inline handler both interpreters make the same calls and get the same answer |
| `Equivalence.ChoicesRetryAlikeExactly` | internal/engine/executor.go:102-106 | the engine retries a choice and the SDK does not: same calls and answer if and only if the first call decides or there is one attempt |
| `Equivalence.TurnsAgreeExactly` | pkg/kflow/graph_json.go:163-177 | after an output both loops stop well, both fail, or both go on at the same state, if and only if the terminal flag says what the picked or fixed target says: choices of a sentinel or "", other picks of terminal choices and empty successors part them |
| `Equivalence.IterationsAgreeExactly` | pkg/kflow/graph_json.go:143-179 | one iteration at a choice or inline state without a catch makes the same calls and the same turn if and only if the functions' answers fit |
| `Equivalence.LoopsAgreeExactly` | pkg/kflow/graph_json.go:143-179 | the same of the two loops themselves, stopped after one iteration |
| `Equivalence.InterpretersAgree` | pkg/kflow/graph_json.go:103-247 | on the fragment, a run that meets no completed state makes the same (state, input) calls in order, takes the same path and ends alike with the same message |
| `Equivalence.RevisitParts` | internal/engine/executor.go:83-89 | a run that meets a completed state makes fewer calls in the engine than in the SDK |
| `Equivalence.InterpretersAgreeExactly` | internal/local/runner.go:18-81 | on a new execution the two runs are the same if and only if the engine's path repeats no state |
| `Equivalence.ReturningRunsAgree` | internal/local/runner.go:18-81 | whenever the engine returns from a new execution the SDK returns alike after the same calls |
| `Equivalence.AcyclicFlowsAgree` | internal/local/runner.go:18-81 | on acyclic flows of the fragment this holds of every new execution, with no condition on the run |
| `Equivalence.WaitsAgreeExactly` | pkg/kflow/graph_json.go:184-191 | the interpreters agree on a wait if and only if its input is empty |
| `Equivalence.CaughtRunsPart` | pkg/kflow/graph_json.go:153-158 | on a failure with a catch in the graph both see the same failure and the SDK goes on at the catch state; the engine does if and only if its chain recovered and the failing state's own successor is the catch state |
| `Equivalence.CaughtCallsAgree` | pkg/kflow/graph_json.go:153-158 | after such a failure both interpreters call the catch state next, with one and the same input |
| `Equivalence.DanglingCatchesFail` | pkg/kflow/graph_json.go:145-150 | with a catch that has no step both fail after the same calls, the engine with the failure itself, the SDK at the unknown state |
| `Equivalence.ServiceStatesAreRefusedExactly` | pkg/kflow/graph_json.go:204-207 | the SDK makes no call for a task state, and fails it, if and only if it has a service target |
| `RunnerProtocol.StepKeepsInv` | internal/engine/k8s_executor.go:43-112 | every executor step, failed service dispatches included, and every callback keeps the protocol invariant |
| `RunnerProtocol.JobHandsBackStoredOutput` | internal/engine/k8s_executor.go:96-112 | a job that ended well hands back exactly the output its state is completed with, and is a fault when the state is not completed |
| `RunnerProtocol.ProtocolSafety` | internal/runner/server.go:70-98 | in every interleaving records and jobs exist only after a write-ahead, and every output handed back or completed for a job state was reported earlier for that state |
| `RunnerProtocol.CallbackTouchesItsOwnState` | internal/runner/server.go:70-98 | a callback changes at most the record its token names, and no executor |
| `RunnerProtocol.CompletedSurvivesExactly` | internal/store/memory_store.go:88-127 | a completed record survives a step if and only if the step is neither a report of its own job that fails it or brings another output, nor a mark, failure or different completion by an executor inside the state |
| `RunnerProtocol.CompletionCanBeLost` | internal/runner/server.go:70-98 | from the start, every job state can be completed and then be overwritten by a late failure report with the same token |
| `RunnerProtocol.GetInput` | internal/runner/server.go:30-67 | a missing execution is an error; otherwise the input of the record of that execution and state, or the execution's input when there is no record or its input is nil |
| `RunnerProtocol.JobGetsWrittenInput` | internal/runner/server.go:44-60 | in every interleaving a job with a token gets the input of the latest write-ahead of its own state |
| `RunnerProtocol.ExecutorsWorkOnTheirBegin` | internal/engine/executor.go:150-181 | in every interleaving an executor inside a state holds the state and input of its own latest begin, attempt one plus the retries since, and the fault of its latest job |
| `RunnerProtocol.FaultIsRecorded` | internal/engine/executor.go:117-122 | a failed attempt is recorded with the message it failed with, retried or given up |
| `RunnerProtocol.JobGetsBegunInput` | internal/engine/executor.go:158-163 | when one executor drives an execution, a job of the state it is inside gets the input the state was begun with, through all retries |
| `RunnerProtocol.RecordsHoldBegunInputs` | internal/engine/executor.go:75-81 | with any number of executors every record holds an input its state was begun with by an executor of its execution |
| `Names.ToKebab` | internal/k8s/job.go:70-98 | the rune loop spells the name as the kebab function does |
| `Names.KebabIsTidyAndIdempotent` | internal/k8s/job.go:70-98 | only letters, digits and hyphens, no two hyphens in a row, and a second conversion changes nothing |
| `Names.KebabSplitsWords` | internal/k8s/job.go:74-90 | at a camel-case boundary, and before the last capital of a run, the two parts are converted on their own and joined by one hyphen |
| `Names.KebabSplitsAtSeparators` | internal/k8s/job.go:91-98 | a separator between two words, such as an underscore, becomes one hyphen |
| `Names.JobName` | internal/k8s/job.go:51-68 | always a label of section 2.3.1 of RFC 1035: the longest part of the full name within 63 characters not ending in a hyphen |
| `Names.WithoutHyphensJoins` | internal/k8s/job.go:56-56 | hyphens are dropped from the id piece by piece |
| `Names.WithoutHyphensKeepsTheRest` | internal/k8s/job.go:56-56 | and everything else is kept, in order |
| `Names.SvcName` | internal/k8s/deployment.go:28-35 | the same for services |
| `LogHub.HubTracks` | internal/api/logs_ws_handler.go:34-48 | in every serial order of subscribes, leaves, closes, publishes and receives, a subscriber is registered exactly between its subscribe and unsubscribe, and then its channel is open |
| `LogHub.ContainsExactly` | internal/api/logs_ws_handler.go:175-177 | a query is found exactly in the messages that have it as a part |
| `LogHub.ExcludedExactly` | internal/api/logs_ws_handler.go:162-179 | a row is excluded if and only if a set filter field differs from it or the query is no part of its message |
| `LogHub.SendsHitOpenChannels` | internal/api/logs_ws_handler.go:43-63 | whenever a row is published every registered channel is open, and no other channel is touched |
| `LogHub.DeliveredInOrder` | internal/api/logs_ws_handler.go:34-63 | received plus buffered rows are an in-order subsequence of the matching rows published between the subscriber's own subscribe and unsubscribe, at most 64 buffered |
| `LogHub.LosslessExactlyWhenNeverFull` | internal/api/logs_ws_handler.go:52-63 | a subscriber gets all those rows if and only if none of them was published while its channel held 64, and fewer otherwise |
| `LogHub.LogSubscriber.Offer` | internal/api/logs_ws_handler.go:56-61 | a matching row is buffered unless 64 are |
| `LogHub.LogSubscriber.Receive` | internal/api/logs_ws_handler.go:131-141 | takes the oldest buffered row: the hub's Receive step |
| `LogHub.Hub.Subscribe` | internal/api/logs_ws_handler.go:34-40 | registers a new open channel: the hub's Subscribe step, with an id never used before |
| `LogHub.Hub.Unsubscribe` | internal/api/logs_ws_handler.go:43-48 | the hub's Leave step and then its Close step, both enabled |
| `LogHub.Hub.Publish` | internal/api/logs_ws_handler.go:52-63 | the loop over registered channels is the hub's Publish step, in any iteration order |
| `ProtoValues.RoundTripExactly` | sdk/rust/src/runner.rs:377-412 | protobuf to JSON and back is the identity if and only if kinds are set, nulls are 0 and numbers finite at every depth, and always an idempotent normalisation |
| `ProtoValues.RelayNormalises` | sdk/rust/src/runner.rs:377-412 | the round trip makes unset kinds, null codes and numbers that are not finite null, at every depth, and nothing else |
| `ProtoValues.JsonRoundTrip` | sdk/rust/src/runner.rs:377-412 | JSON to protobuf and back is the identity, for numbers that are doubles |

## Left out

- HTTP, gRPC, WebSocket and SSE plumbing, the gateway, the CLI, the UI and generated protobuf code: no properties of their own.
- Execution and service records and their listing (`CreateExecution`, `UpdateExecution`, `ListExecutions`, `ListStates`, the service methods): single-record updates that would only add easy members; `ListStates` also differs by design, one entry per attempt on the document store.
- Network and disk failures of MongoDB, the object store and Kubernetes, and the non-atomicity of find-then-update under several orchestrators: each store operation is one step.
- Token signing and expiry, JSON text and base64: a valid token is its claim, JSON is an encode/decode pair.
- Time: sleeps, backoff, `ResumeAt` and timestamps are dropped; only the wait duration carried by the graph is kept.
- Mutation of shared Go maps by handlers, and aliasing of `TaskDef` and `StepBuilder` pointers: payloads, tasks, steps and workflows are values, and the builders of `pkg/kflow/workflow.go` are functions on them; a setter finds its state by name and its step by position.
- The extra transitions `buildHandler` emits around a job (internal/engine/k8s_executor.go:52-57): the event theorems are about in-process handlers.
- The Python and Rust local interpreters.
- StoreObjects.MongoStore.GetStateOutput: following a reference without an object store is a refusal here, where the original dereferences a nil pointer.
- Registration.ToRegister: wait seconds are truncated exactly, where the original goes through a float; the two agree on whole seconds, the only case the round trip needs.
- Names.JobName: distinct states can still get the same name, since case, punctuation and everything past 63 characters are lost.
- ProtoValues.JsonRoundTrip: JSON integers outside the range of exact doubles are not modelled.
