# Transfer conveyor queue manager and rule-parameter splitter

This project models two pieces of the Jargon iRODS client libraries.

## The conveyor queue manager

The transfer conveyor queues transfers between iRODS paths and local paths.
It hands them to an executor one at a time.

- Single-flight hand-off rests on the executor's busy flag. It is a
  non-blocking try-lock: a call that finds it held gives up and does not wait.
- `enqueueTransferOperation` resolves the caller's grid account and marks the
  transfer ENQUEUED. It then saves the transfer, has the accounting service
  prepare it, and triggers a dequeue.
- `dequeueNextOperation` takes the permit and reads the ENQUEUED transfers.
  - With none, it releases the permit.
  - Otherwise it resets the error status to OK and loads the last attempt of
    the first ENQUEUED transfer. It stamps that attempt's start, moves the
    transfer to PROCESSING, saves it, and gives it to the executor. The permit
    stays held.
  - Any exception in that cycle releases the permit and notifies the callback
    listener once. Dequeue then invokes itself again.
- `enqueueRestartOfTransferOperation` re-enqueues a transfer that has a last
  attempt.
- `purgeAllFromQueue` deletes everything under the permit.
- Three passthroughs read the store.

The model is functional. The whole dispatcher is one `Conveyor` value:

- the store;
- the gate, holding the busy flag and the error status;
- a clock;
- the count of listener notifications;
- the list of hand-offs made to the executor.

Every operation maps a conveyor, and an `Env` describing the outside world, to
its outcome and the conveyor after it. The outside world covers:

- which store calls throw. `failing` scripts the call itself; for a dequeue
  called directly, that is its first cycle. `retryFailing` scripts, in
  order, each further dequeue cycle: the re-invocations after a failed cycle
  and, for an enqueue, the cycles of the dequeue it triggers;
- the grid-account lookup;
- whether preparing a transfer records an attempt.

Each failed dequeue cycle re-invokes dequeue one stack frame deeper, and
nothing bounds the depth. `fuel` stands for the stack depth left. A call with
no fuel left returns `Exhausted`, which stands for the `StackOverflowError`.
That is an error, not an exception, so none of dequeue's or enqueue's catch
blocks handles it. An enqueue whose dequeue overflows therefore fails with
`StackOverflow`, and its save is kept. The properties the model proves
include:

- single-flight hand-off over any sequence of calls (`AtMostOneHandoff`);
- one notification per failed cycle;
- the stack overflow on a head without an attempt;
- store well-formedness across all calls.

## The rule-parameter splitter

`RuleParsingUtils.parseInputParameterForNameAndValue` splits one rule input
parameter at its first `=`. The name is trimmed as Java's `String.trim` trims.
The value keeps its text, except that one leading `$` is removed. The model
proves several properties:

- an if-and-only-if for each rejection;
- round trips in both directions: parse then rebuild, and build then parse;
- the `$` cases.

## Behaviour of the code worth knowing

- **Restart.** `BasicQueueManagerServiceImpl.java:106-108` sets ENQUEUED and
  a new update time on the transfer it loaded. It neither saves it, checks
  its state, nor triggers a dequeue. An id whose transfer is absent but whose
  attempt exists dereferences null; the model reports that as
  `NullDereference`.
- **Dequeue's error status.** `BasicQueueManagerServiceImpl.java:233` resets
  the status to OK only after the lookup found a non-empty queue, not on
  acquiring the permit.
- **A head without an attempt.** `BasicQueueManagerServiceImpl.java:238-244`
  only logs a missing attempt and then sets its start on the null reference.
  The cycle fails, and the same head is picked again on every re-invocation,
  until the stack overflows.
  `QueueManagerProperties.HeadWithoutAttemptNeverDispatches` and
  `QueueManagerProperties.EnqueueWithoutAttemptOverflows` state this.
- **Selection order.** `BasicQueueManagerServiceImpl.java:218-228` takes
  element 0 of the ENQUEUED lookup: the first ENQUEUED transfer in the order
  the store lists them. Whether that order is by creation time is up to the
  store, which is not part of this model.

## Model

| member | source | states |
|---|---|---|
| ExecutionGate.TryAcquire | jargon-conveyor/src/main/java/org/irods/jargon/conveyor/basic/BasicQueueManagerServiceImpl.java:209-214 | taking the permit succeeds exactly when it is free; a refused attempt leaves the gate unchanged; the status is kept |
| ExecutionGate.Release | jargon-conveyor/src/main/java/org/irods/jargon/conveyor/basic/BasicQueueManagerServiceImpl.java:222-225 | after release the permit is free and can be taken again; the status is kept |
| ExecutionGate.SetStatus | jargon-conveyor/src/main/java/org/irods/jargon/conveyor/basic/BasicQueueManagerServiceImpl.java:232-233 | recording a status leaves the permit as it was |
| ExecutionGate.MutualExclusion | jargon-conveyor/src/main/java/org/irods/jargon/conveyor/basic/BasicQueueManagerServiceImpl.java:209-214 | two acquisitions in a row never both succeed |
| TransferStore.EnqueuedTransfers | jargon-conveyor/src/main/java/org/irods/jargon/conveyor/basic/BasicQueueManagerServiceImpl.java:218-222 | the lookup by state ENQUEUED returns only ENQUEUED transfers; it is empty exactly when no stored transfer is ENQUEUED |
| TransferStore.EnqueuedTransfersMembers | jargon-conveyor/src/main/java/org/irods/jargon/conveyor/basic/BasicQueueManagerServiceImpl.java:218-219 | the lookup holds every ENQUEUED stored transfer and nothing that is not stored |
| TransferStore.EnqueuedTransfersHead | jargon-conveyor/src/main/java/org/irods/jargon/conveyor/basic/BasicQueueManagerServiceImpl.java:218-228 | element 0 of the lookup is the first ENQUEUED transfer in store order |
| TransferStore.FindTransfer | jargon-conveyor/src/main/java/org/irods/jargon/conveyor/basic/BasicQueueManagerServiceImpl.java:76-83 | lookup by id finds a transfer exactly when one with that id is stored, and what it finds is stored and has that id |
| TransferStore.SaveTransfer | jargon-conveyor/src/main/java/org/irods/jargon/conveyor/basic/BasicQueueManagerServiceImpl.java:165-166 | saving a transfer leaves the attempts alone; the saved record keeps its id or gets the next fresh id |
| TransferStore.SaveTransferUpserts | jargon-conveyor/src/main/java/org/irods/jargon/conveyor/basic/BasicQueueManagerServiceImpl.java:165-166 | a stored id is updated in place with every other record kept; an unknown id is appended under the next id, which advances; the saved record is then stored |
| TransferStore.SaveKeepsWellFormed | jargon-conveyor/src/main/java/org/irods/jargon/conveyor/basic/BasicQueueManagerServiceImpl.java:165-166 | saving keeps stored ids positive, below the next id, and unique |
| QueueManager.Moved | jargon-conveyor/src/main/java/org/irods/jargon/conveyor/basic/BasicQueueManagerServiceImpl.java:245-246 | dequeue's change to the head: PROCESSING and a new update time, with identity, paths, account and creation time kept |
| QueueManager.DequeueCycle | jargon-conveyor/src/main/java/org/irods/jargon/conveyor/basic/BasicQueueManagerServiceImpl.java:216-250 | a cycle fails exactly when the ENQUEUED lookup throws, or a head exists and its attempt lookup throws, its save throws, or it has no attempt; a failed cycle changes no record, hand-off, notification or permit; an idle cycle happens exactly when nothing is ENQUEUED and only releases the permit |
| QueueManager.CycleKeepsRecords | jargon-conveyor/src/main/java/org/irods/jargon/conveyor/basic/BasicQueueManagerServiceImpl.java:228-247 | a cycle rewrites records in place only: same length, same ids, same attempts and next id, well-formedness kept, clock never back |
| QueueManager.CycleHandOff | jargon-conveyor/src/main/java/org/irods/jargon/conveyor/basic/BasicQueueManagerServiceImpl.java:228-250 | a handing-off cycle resets the status to OK, keeps the permit, hands off the first ENQUEUED transfer (which has an attempt), moved to PROCESSING with a started attempt, and rewrites exactly that record |
| QueueManager.Recover | jargon-conveyor/src/main/java/org/irods/jargon/conveyor/basic/BasicQueueManagerServiceImpl.java:252-263 | after a failed cycle the permit is free and exactly one more notification has been sent; store and hand-offs are kept |
| QueueManager.DequeueNextOperation | jargon-conveyor/src/main/java/org/irods/jargon/conveyor/basic/BasicQueueManagerServiceImpl.java:206-267 | dequeue returns at once, changing nothing, exactly when the permit is held; with no stack depth left it overflows, changing nothing; without a hand-off the store and hand-offs are as before |
| QueueManager.DequeueKeepsRecords | jargon-conveyor/src/main/java/org/irods/jargon/conveyor/basic/BasicQueueManagerServiceImpl.java:216-265 | over all re-invocations, dequeue keeps every id at its position, the attempts and the next id, and well-formedness; the clock never goes back |
| QueueManager.DequeueNotifies | jargon-conveyor/src/main/java/org/irods/jargon/conveyor/basic/BasicQueueManagerServiceImpl.java:252-265 | one notification per failed cycle: at most one per frame of stack depth, and one per frame when the stack overflowed |
| QueueManager.DequeueHandOff | jargon-conveyor/src/main/java/org/irods/jargon/conveyor/basic/BasicQueueManagerServiceImpl.java:209-250 | from a free permit, dequeue ends holding it exactly when it handed off; idle means nothing is ENQUEUED; a hand-off is of the first ENQUEUED transfer, which has an attempt, with status OK, one record appended and only that transfer rewritten to PROCESSING |
| QueueManager.EnqueueRestartOfTransferOperation | jargon-conveyor/src/main/java/org/irods/jargon/conveyor/basic/BasicQueueManagerServiceImpl.java:64-110 | non-positive id is an illegal argument; restart succeeds exactly when lookups do not throw, an attempt exists and the transfer is stored; a transfer without an attempt is rejected; every failure changes nothing; success makes exactly that record ENQUEUED with a newer update time |
| QueueManager.EnqueueTransferOperation | jargon-conveyor/src/main/java/org/irods/jargon/conveyor/basic/BasicQueueManagerServiceImpl.java:121-177 | null transfer, null account and unresolved grid account fail in that order before anything changes; a save failure is reported exactly when the save throws; a dequeue that overflows the stack makes enqueue fail with `StackOverflow`, hands nothing off and keeps the ENQUEUED transfer stored; every other failure changes nothing; well-formedness is kept; success sets the grid account and a newer update time, keeps the paths, and leaves the transfer stored under its own id or a fresh one; the returned transfer is PROCESSING exactly when dequeue handed off that transfer, and ENQUEUED otherwise |
| QueueManager.MarkedForQueue | jargon-conveyor/src/main/java/org/irods/jargon/conveyor/basic/BasicQueueManagerServiceImpl.java:157-159 | enqueue changes only the grid account, the state (to ENQUEUED) and the update time |
| QueueManager.SaveAndPrepare | jargon-conveyor/src/main/java/org/irods/jargon/conveyor/basic/BasicQueueManagerServiceImpl.java:165-168 | after save and preparation the transfer is stored, the gate and hand-offs are untouched, ids stay well formed, and when the service records an attempt the transfer has one |
| QueueManager.PrepareTransferForProcessing | jargon-conveyor/src/main/java/org/irods/jargon/conveyor/basic/BasicQueueManagerServiceImpl.java:167-168 | preparation touches only the attempts, recording a fresh unstarted one when the service does so |
| QueueManager.EnqueueTransferByLocations | jargon-conveyor/src/main/java/org/irods/jargon/conveyor/basic/BasicQueueManagerServiceImpl.java:279-290 | the built transfer carries the two paths, the type and a creation time; a null account is an illegal argument; on success from a well-formed store it is appended under the next id |
| QueueManager.PurgeAllFromQueue | jargon-conveyor/src/main/java/org/irods/jargon/conveyor/basic/BasicQueueManagerServiceImpl.java:298-324 | busy fails exactly when the permit is held, changing nothing; a throwing purge is an execution failure that deletes nothing; otherwise every transfer and attempt is gone; both paths end with the permit released |
| QueueManager.ListAllTransfersInQueue | jargon-conveyor/src/main/java/org/irods/jargon/conveyor/basic/BasicQueueManagerServiceImpl.java:185-197 | fails exactly when the store throws; otherwise every stored transfer in order |
| QueueManager.FindTransferByTransferId | jargon-conveyor/src/main/java/org/irods/jargon/conveyor/basic/BasicQueueManagerServiceImpl.java:407-417 | fails exactly when the store throws; a found transfer is stored with that id; none means no stored transfer has it |
| QueueManager.InitializeGivenTransferByLoadingChildren | jargon-conveyor/src/main/java/org/irods/jargon/conveyor/basic/BasicQueueManagerServiceImpl.java:326-336 | fails exactly when the store throws; otherwise the same transfer with its last attempt loaded exactly when one exists |
| QueueManagerProperties.RestartRejectsIdBeforeLookup | jargon-conveyor/src/main/java/org/irods/jargon/conveyor/basic/BasicQueueManagerServiceImpl.java:69-71 | a non-positive id is refused whatever the store would do, so before any lookup |
| QueueManagerProperties.RestartPerformsNoSave | jargon-conveyor/src/main/java/org/irods/jargon/conveyor/basic/BasicQueueManagerServiceImpl.java:106-110 | restart behaves the same whether or not saving throws: it never saves |
| QueueManagerProperties.RestartDoesNotDequeue | jargon-conveyor/src/main/java/org/irods/jargon/conveyor/basic/BasicQueueManagerServiceImpl.java:106-110 | after a restart the transfer is found ENQUEUED and no hand-off or permit change happened |
| QueueManagerProperties.DequeueWhileBusyIsNoOp | jargon-conveyor/src/main/java/org/irods/jargon/conveyor/basic/BasicQueueManagerServiceImpl.java:209-214 | with the permit held dequeue returns at once with nothing changed |
| QueueManagerProperties.DequeueOnEmptyQueue | jargon-conveyor/src/main/java/org/irods/jargon/conveyor/basic/BasicQueueManagerServiceImpl.java:218-226 | with nothing ENQUEUED dequeue ends idle with the conveyor, error status included, exactly as before |
| QueueManagerProperties.DequeueFailureReinvokes | jargon-conveyor/src/main/java/org/irods/jargon/conveyor/basic/BasicQueueManagerServiceImpl.java:252-265 | a failed cycle frees the permit, adds one notification, and dequeue returns what its re-invocation returns |
| QueueManagerProperties.HeadWithoutAttemptNeverDispatches | jargon-conveyor/src/main/java/org/irods/jargon/conveyor/basic/BasicQueueManagerServiceImpl.java:234-263 | a head without an attempt fails every cycle: dequeue re-invokes itself until the stack overflows, one notification per cycle, hands nothing off, leaves the store as it was and the permit free |
| QueueManagerProperties.TransientFailureIsDrainedPast | jargon-conveyor/src/main/java/org/irods/jargon/conveyor/basic/BasicQueueManagerServiceImpl.java:252-265 | when the store behaves again after one failed cycle, the re-invocation hands the head off, after exactly as many notifications as failed cycles |
| QueueManagerProperties.CycleHandsOffHead | jargon-conveyor/src/main/java/org/irods/jargon/conveyor/basic/BasicQueueManagerServiceImpl.java:228-250 | a cycle with no throwing store call hands off the head that has an attempt and keeps the permit |
| QueueManagerProperties.DequeueDispatchesHead | jargon-conveyor/src/main/java/org/irods/jargon/conveyor/basic/BasicQueueManagerServiceImpl.java:228-250 | from a free permit, the first ENQUEUED transfer with an attempt is handed off; its record alone becomes PROCESSING and the permit stays held |
| QueueManagerProperties.SavedIsSoleEnqueued | jargon-conveyor/src/main/java/org/irods/jargon/conveyor/basic/BasicQueueManagerServiceImpl.java:155-168 | enqueue into a queue with nothing waiting leaves the saved transfer as the only ENQUEUED one, hence the head |
| QueueManagerProperties.EnqueueOnIdleConveyorDispatchesIt | jargon-conveyor/src/main/java/org/irods/jargon/conveyor/basic/BasicQueueManagerServiceImpl.java:161-169 | on an idle, empty conveyor the enqueued transfer is handed off within the same call; both the stored record and the returned transfer are PROCESSING, with nothing left waiting |
| QueueManagerProperties.EnqueueReturnsStoredRecord | jargon-conveyor/src/main/java/org/irods/jargon/conveyor/basic/BasicQueueManagerServiceImpl.java:165-169 | after an enqueue that succeeds or overflows, the returned transfer is exactly the record stored under its id: the caller's object is the one the store manages and dequeue moves |
| QueueManagerProperties.DequeueFindsRecord | jargon-conveyor/src/main/java/org/irods/jargon/conveyor/basic/BasicQueueManagerServiceImpl.java:228-247 | after dequeue, each stored record is found under its id moved to PROCESSING when it was the transfer handed off, and unchanged otherwise |
| QueueManagerProperties.EnqueueWithoutAttemptOverflows | jargon-conveyor/src/main/java/org/irods/jargon/conveyor/basic/BasicQueueManagerServiceImpl.java:161-176 | on an idle, empty conveyor whose preparation records no attempt, enqueue fails with the stack overflow: one notification per frame, nothing handed off, the permit free, and the transfer stored ENQUEUED |
| QueueManagerProperties.EnqueueWhileBusyOnlyQueues | jargon-conveyor/src/main/java/org/irods/jargon/conveyor/basic/BasicQueueManagerServiceImpl.java:161-169 | while another transfer holds the permit, enqueue stores the transfer ENQUEUED and its dequeue returns at once |
| QueueManagerProperties.SecondTransferWaitsForTheFirst | jargon-conveyor/src/main/java/org/irods/jargon/conveyor/basic/BasicQueueManagerServiceImpl.java:121-267 | J1 is dispatched; J2 enqueued while J1 runs waits ENQUEUED; once the permit is released a dequeue dispatches J2 |
| QueueManagerProperties.StepRespectsPermit | jargon-conveyor/src/main/java/org/irods/jargon/conveyor/basic/BasicQueueManagerServiceImpl.java:206-324 | every call keeps earlier hand-offs; with the permit held it hands nothing off and keeps it; from a free permit it hands off at most one and holds the permit exactly then |
| QueueManagerProperties.EnqueueRespectsPermit | jargon-conveyor/src/main/java/org/irods/jargon/conveyor/basic/BasicQueueManagerServiceImpl.java:165-169 | enqueue follows the permit discipline |
| QueueManagerProperties.EnqueueByLocationsRespectsPermit | jargon-conveyor/src/main/java/org/irods/jargon/conveyor/basic/BasicQueueManagerServiceImpl.java:279-290 | enqueue by locations follows the permit discipline |
| QueueManagerProperties.RestartRespectsPermit | jargon-conveyor/src/main/java/org/irods/jargon/conveyor/basic/BasicQueueManagerServiceImpl.java:64-110 | restart follows the permit discipline |
| QueueManagerProperties.DequeueRespectsPermit | jargon-conveyor/src/main/java/org/irods/jargon/conveyor/basic/BasicQueueManagerServiceImpl.java:206-267 | dequeue follows the permit discipline |
| QueueManagerProperties.PurgeRespectsPermit | jargon-conveyor/src/main/java/org/irods/jargon/conveyor/basic/BasicQueueManagerServiceImpl.java:305-323 | purge follows the permit discipline |
| QueueManagerProperties.HeldPermitBlocksDispatch | jargon-conveyor/src/main/java/org/irods/jargon/conveyor/basic/BasicQueueManagerServiceImpl.java:209-214 | while the permit is held, no sequence of calls hands anything off or frees it |
| QueueManagerProperties.AtMostOneHandoff | jargon-conveyor/src/main/java/org/irods/jargon/conveyor/basic/BasicQueueManagerServiceImpl.java:206-267 | any sequence of calls hands off at most one transfer, keeps earlier hand-offs, and ends holding the permit if it did |
| QueueManagerProperties.StepPreservesWellFormed | jargon-conveyor/src/main/java/org/irods/jargon/conveyor/basic/BasicQueueManagerServiceImpl.java:64-336 | every call keeps stored ids positive, below the next id, and unique |
| QueueManagerProperties.RestartPreservesWellFormed | jargon-conveyor/src/main/java/org/irods/jargon/conveyor/basic/BasicQueueManagerServiceImpl.java:106-108 | restart rewrites one record in place, keeping ids well formed |
| QueueManagerProperties.RunPreservesWellFormed | jargon-conveyor/src/main/java/org/irods/jargon/conveyor/basic/BasicQueueManagerServiceImpl.java:64-336 | any sequence of calls keeps the store well formed |
| QueueManagerProperties.ListedIffFoundById | jargon-conveyor/src/main/java/org/irods/jargon/conveyor/basic/BasicQueueManagerServiceImpl.java:185-197 | in a well-formed store, a transfer is listed exactly when finding its id returns it |
| QueueManagerProperties.HandedOffTransferHasAttempt | jargon-conveyor/src/main/java/org/irods/jargon/conveyor/basic/BasicQueueManagerServiceImpl.java:326-336 | the transfer dequeue hands off carries the id it reports, and loading its children afterwards finds a last attempt |
| RuleParsing.Trim | jargon-core/src/main/java/org/irods/jargon/core/rule/RuleParsingUtils.java:58 | the trimmed name is a slice of the raw one with only blanks (characters up to U+0020) around it, and it neither starts nor ends with a blank |
| RuleParsing.TrimIdempotent | jargon-core/src/main/java/org/irods/jargon/core/rule/RuleParsingUtils.java:58 | trimming twice is trimming once |
| RuleParsing.TrimOfUnpadded | jargon-core/src/main/java/org/irods/jargon/core/rule/RuleParsingUtils.java:58 | a name that neither starts nor ends with a blank is not altered |
| RuleParsing.TrimOfPadded | jargon-core/src/main/java/org/irods/jargon/core/rule/RuleParsingUtils.java:58 | any blanks around a text that starts and ends with a non-blank are removed, and the text comes back unchanged |
| RuleParsing.PaddedOneLetterName | jargon-core/src/main/java/org/irods/jargon/core/rule/RuleParsingUtils.java:58 | the example ` a ` trims to `a` |
| RuleParsing.IndexOfChar | jargon-core/src/main/java/org/irods/jargon/core/rule/RuleParsingUtils.java:45 | the position of the first occurrence, or -1 exactly when the character is absent |
| RuleParsing.StripDollar | jargon-core/src/main/java/org/irods/jargon/core/rule/RuleParsingUtils.java:67-69 | a value starting with `$` loses exactly that one character; any other value is kept |
| RuleParsing.ParseInputParameterForNameAndValue | jargon-core/src/main/java/org/irods/jargon/core/rule/RuleParsingUtils.java:36-72 | null or empty is rejected exactly when given; missing `=` exactly when no `=` occurs; empty value exactly when the first `=` is the last character; a parsed name never holds `=` |
| RuleParsing.ParseAtFirstEqualSign | jargon-core/src/main/java/org/irods/jargon/core/rule/RuleParsingUtils.java:45-71 | with the first `=` at k and text after it, the name is the trimmed prefix and the value the `$`-stripped suffix |
| RuleParsing.ParseRoundTrip | jargon-core/src/main/java/org/irods/jargon/core/rule/RuleParsingUtils.java:45-71 | on success the input is the raw name (without `=`, trimming to the name), `=`, possibly the one stripped `$`, and the value |
| RuleParsing.ParseOfUnmarkedValue | jargon-core/src/main/java/org/irods/jargon/core/rule/RuleParsingUtils.java:58-59 | building `name=value` with a `$`-free value and parsing it gives the trimmed name and the value verbatim |
| RuleParsing.ParseOfMarkedValue | jargon-core/src/main/java/org/irods/jargon/core/rule/RuleParsingUtils.java:67-71 | building `name=$value` and parsing it gives the trimmed name and the value without its one marker |
| RuleParsing.LoneDollarGivesEmptyValue | jargon-core/src/main/java/org/irods/jargon/core/rule/RuleParsingUtils.java:67-69 | `a=$` yields name `a` and an empty value |
| RuleParsing.DoubleDollarKeepsOne | jargon-core/src/main/java/org/irods/jargon/core/rule/RuleParsingUtils.java:67-69 | `a=$$x` yields value `$x` |
| RuleParsing.LaterEqualSignsStayInValue | jargon-core/src/main/java/org/irods/jargon/core/rule/RuleParsingUtils.java:45-59 | ` a =b=c ` yields name `a` and value `b=c `: the name is trimmed, the value is not, and later `=` signs stay in it |
| RuleParsing.NameWithoutValueRejected | jargon-core/src/main/java/org/irods/jargon/core/rule/RuleParsingUtils.java:51-63 | as written, `a=` is rejected with `emptyParamVal`; the corrected parse returns `a` with an empty value |
| RuleParsing.ParseInputParameterKeepingEmptyValue | jargon-core/src/main/java/org/irods/jargon/core/rule/RuleParsingUtils.java:51-56 | the corrected parse fails exactly on a null or empty parameter or one without `=`; an empty value comes with an `=`-free name |
| RuleParsing.BareNameWithEqualSign | jargon-core/src/main/java/org/irods/jargon/core/rule/RuleParsingUtils.java:51-63 | for every name without `=`, the name followed by `=` is rejected as written with `emptyParamVal`, and the corrected parse returns that name, untrimmed, with an empty value |
| RuleParsing.KeepingEmptyValueExtendsParse | jargon-core/src/main/java/org/irods/jargon/core/rule/RuleParsingUtils.java:51-63 | the corrected parse agrees with the original wherever the original succeeds, and accepts every parameter holding an `=` |

## Left out

- The DAO internals are not modelled. Transfers and attempts live in a value
  `Store`, and save is an upsert by id. Each store call either works or throws,
  as the environment says.
- Spring's transactional rollback is not modelled. A failed call changes
  nothing in the model.
- The store is read as managing the objects it holds, for restart and enqueue
  alike. Restart's unsaved changes reach the stored record. Enqueue returns
  the transfer as the stored record stands after the call, which is
  PROCESSING when its own dequeue handed it off; after a throwing save it
  returns the transfer with enqueue's changes made to it. Object identity is
  not tracked beyond that.
- Logging is not modelled. The executor's `processTransfer` is a record
  appended to the hand-off list. The executor is assumed to release the
  permit when a transfer completes; that release is outside this model.
- The accounting service's `prepareTransferForProcessing` is reduced to one
  environment flag: whether it records an unstarted attempt for the saved
  transfer.
- Threads are not modelled. The busy flag is a boolean in a sequential model,
  so interleavings inside a call are out of scope.
- `java.util.Date` is a counter that every date reading advances.
- `evaluateTransferForExecution` accepts every transfer, as its empty body
  does.
- `ErrorStatus` is reduced to OK and ERROR; only dequeue's reset to OK occurs
  here.
- The messages and causes of wrapped exceptions are not modelled, beyond the
  literal messages the source gives.
- QueueManager.DequeueNextOperation: the stack depth at which the
  re-invocations overflow is a parameter, `fuel`, not the JVM's. The deepest
  frame may overflow after it took the permit, leaving it held; the model
  leaves the permit as the frame above released it.
- QueueManager.EnqueueTransferOperation: Spring's rollback on an error is not
  modelled, so a save followed by a stack overflow is kept.
- QueueManager.DequeueCycle: a `processTransfer` that throws
  (`BasicQueueManagerServiceImpl.java:249-250`) is not modelled as a failed
  cycle. In the source it comes after the save at line 247, so the head stays
  PROCESSING with no hand-off, and dequeue re-invokes itself. The model
  treats every hand-off as accepted.
- QueueManager.DequeueCycle: when the save at line 247 throws, the model drops
  the head's in-memory changes of lines 245-246, while restart keeps its
  unsaved change. A store that later flushes such in-memory changes is not
  modelled.
- QueueManagerProperties.TransientFailureIsDrainedPast covers one failed cycle
  followed by healthy ones, not arbitrary failure scripts.
- The attempt's start stamp travels on the hand-off record. It is not written
  back to the store, because the source does not save the attempt.
- Restart's lookup by id is assumed to return null for an absent id. The DAO
  that decides this is not part of this model.
- The other Jargon components in the repository are not part of this model:
  user groups, the properties-file configuration and the shopping cart.

## Findings

| source | as written | input that shows it | evidently intended | confidence | as-written member | corrected member |
|---|---|---|---|---|---|---|
| jargon-core/src/main/java/org/irods/jargon/core/rule/RuleParsingUtils.java:51-63 | the no-value branch builds a parameter with an empty value but does not return it, so control falls through to the empty-value check, which throws | `a=` | return the name with an empty value, as the branch's comment says such input is acceptable | not executed | RuleParsing.NameWithoutValueRejected | RuleParsing.ParseInputParameterKeepingEmptyValue |
