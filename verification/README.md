# Koperator: a verified model of its schedulers and configuration logic

Koperator runs Apache Kafka on Kubernetes. This project models the parts of it
whose correctness spans several functions or a whole run, and proves what they
promise:

- **The Cruise Control operation scheduler** (`Operation*.dfy`, `ReconcileStep`,
  `RefreshStage`, `Scheduler*.dfy`). Each reconcile filters the operations of a
  Kafka cluster, polls Cruise Control, sorts the operations into four queues,
  picks one, guards against a second one running, sends it and records the
  answer together with the history of failed attempts. `OperationController`
  holds the controller as code that mutates objects and a store; it is proved
  equal to the step function of `ReconcileStep`, and `SchedulerSafety` and
  `SchedulerDraining` prove the laws of every run of that step among users,
  Cruise Control and the clock. `SchedulerChoices` says what a reconcile decides
  and what is due, `SchedulerBackoff` when the wait before a retry is kept, `SchedulerSending` follows what is sent to Cruise Control,
  `SchedulerFinalizers` what becomes of records that are deleted,
  `SchedulerExclusion` what else can run when a request is sent, and
  `SchedulerInstances` holds runs that show what is not promised.
- **The Cruise Control task tracker** (`TaskTypes`, `TaskTracking`,
  `TaskScheduling`, `TaskTracker`, `StatusStore`). Tasks are extracted from a
  cluster's status, updated from operations, scheduled, and written back to an
  API server that keeps versions while others write. `BrokerStatusUpdate` is the
  other writer of that status, and `TrackerAndScheduler` relates what the tracker
  shows to where the scheduler has an operation.
- **The properties library** (`Escaping`, `Text`, `Property*.dfy`,
  `PropertiesObject`). An ordered dictionary of two maps and a counter, its
  escaping printer and its line parser; `PropertyLines` says how continued lines,
  comments and blank lines work together.
- **Places where two parts must agree**: `log.dirs` over any number of
  configuration changes and the rest of the generated configuration
  (`BrokerConfig`, `LogDirs`, `ConfigBindings`), the texts that the task
  controller prints and the scaler parses (`ScaleParameters`), the disks a broker
  mounts and the disks Cruise Control is told about (`BrokerDisks`), scaling on
  alerts (`Alert*.dfy`), and the ports that the webhook accepts and Envoy gets
  (`EnvoyPorts`).

`dafny verify dfyconfig.toml` checks everything.

## The environment

Cruise Control, the API server and the clock are parameters. The laws of runs
state what they rely on as predicates over runs:

- An answer to an execution carries a task id and one of the four states, and
  reports no stopped task as running (`SchedulerWorld.IsAnswer`). A task that has
  stopped or is forgotten is never reported running again (`Advances`), and
  polling reports what Cruise Control knows (`Reports`).
- The error policy is retry or ignore. Reconciles of one controller do not
  overlap, and a reconcile lists each stored operation once (`IsListing`).
- Any write may be refused, or take effect with its answer lost (`ApiServer`). The
  write of an execution's answer may be dropped, as after a conflict
  (controllers/cruisecontroloperation_controller.go:239-248). Draining alone
  assumes an environment that cooperates with the cluster in question
  (`SchedulerDraining.IsFair`), while anything may happen to other clusters.
- In `StatusStore` and `BrokerStatusUpdate` other writers act before every update
  and every read, and reads may return any earlier version.
- The status of Cruise Control says whether it executes a task; a task that is
  merely active waits and does not count (`SchedulerExclusion.TellsTruly`, used
  only where a law says so).
- An update of a whole cluster object leaves its status as it is, because the
  status is a subresource (api/v1beta1/kafkacluster_types.go:832).
- In `AlertScaling` a handling reads the spec up to four times, each time possibly
  an older version, and others may write any cluster before and during it. The
  write of the status that precedes the check of the limits is refused when it is
  made from an outdated version (pkg/k8sutil/status.go:278-322), so the check
  sees the latest version.
- Finish times are stored in whole seconds.
- Texts are ASCII: the separator search counts runes and the slice counts bytes
  (properties/pkg/utils.go:148-157, 290-292), which agree only there.

## What did not hold as promised

- The finalizer is added to the operation that is reconciled, not to the one that
  is sent to Cruise Control, so an operation can run without it and its record
  can then be deleted while it runs: `SentWithFinalizerExactlyWhen` gives the
  exact condition, `SentWithoutFinalizer` an instance.
- With the finalizer a record outlives the task that it names, but not every task
  that was sent for it: `RecordOutlivesTask` shows that only a task whose answer
  was not recorded, or whose id a stop has replaced, can still run when the record
  goes. `GoesAfterDroppedAnswer` and `GoesAfterStop` are instances of the two.
- Two tasks of an operation can be live at once: after a dropped answer the
  record names no task, and Cruise Control truly says that it executes nothing
  while the task waits, so the request is sent again
  (`OverlapsAfterDroppedAnswer`). `SentOnlyWhenIdle` and `TasksDoNotOverlap` say
  which tasks have stopped for good when a request is sent: all that stored
  records follow.
- Two executions of an operation can be less than 30 s apart, because the finish
  time is stored in whole seconds: `RetryBelowThirtySeconds` is a run.
  `RunKeepsBackoffExactlyWhen` gives the exact condition in every reachable state,
  `FailedAtOnceKeepsExactlyWhen` for a first execution that fails at once, and
  `RetriesAreSpaced` what holds in any case, more than 29 s.
- A writer of the spec that comes between the check of the limits and the change
  can make an alert break the limits and repeat an id (`OtherWriterOverruns`,
  `OtherWriterUnderruns`). `RunIsSafeExactlyWhen` says exactly which runs keep
  them, `UninterruptedMeetsGuard` that a handling without such a writer does, and
  `LimitsHold` that all runs do in which nobody else writes.
- `UpdateBrokerStatus` can succeed without writing the status, when an update of
  the status is answered with not found.
- An alert whose change took effect with its answer lost changes the spec again
  (`LostAnswerChangesTwice`); `ChangesOncePerAlert` shows that this and a resolve
  in between are the only ways.
- A property whose key holds an escape before a separator, or whose key or value
  has white space at an end, does not survive printing: `SurvivesIffPrintable`
  gives the exact condition.
- The two computations of a broker's disks disagree on a path that one list names
  twice with different contents: `DisksAgree` gives the exact condition,
  `DuplicatePathDisagrees` an instance.
- The webhook does not look at a listener's own Envoy config, so an accepted spec
  may still give Envoy two equal ports: `EnvoyPortsDistinctExactlyWhen` and
  `OverrideMayCollide`.

## Model

| member | source | states |
|---|---|---|
| `SchedulerSafety.AtMostOneRunning` | controllers/cruisecontroloperation_controller.go:169-255 | In every reachable state at most one operation of a Kafka cluster that is not a stop is running. |
| `SchedulerSafety.FailedTasksAreTheLastFifty` | controllers/cruisecontroloperation_controller.go:434-450 | Over every run the list of failed tasks is exactly the last 50 of the failed attempts that were retried, in order, each finished with an error, and the retry count is the number of all of them. |
| `SchedulerSafety.RetriesAreSpaced` | api/v1alpha1/cruisecontroloperation_types.go:206-216 | Over every run, of two consecutive recorded executions of an operation, stops aside, the first failed and the second is sent more than 30 s after its end as noted; more than 30 s after its recording if that is not later than the noted end, and more than 29 s in any case. |
| `SchedulerBackoff.RunKeepsBackoffExactlyWhen` | api/v1alpha1/cruisecontroloperation_types.go:206-216 | In every reachable state, an operation that waits for a retry is ready only more than 30 s after its last recorded execution exactly when that was recorded on a whole second or its end was noted in a later second; from now on exactly when, besides, the 30 s are over. |
| `SchedulerBackoff.AlwaysKeptExactlyWhen` | api/v1alpha1/cruisecontroloperation_types.go:206-216 | For an operation that waits for a retry, being ready implies more than 30 s since a given recording exactly when the recording is not later than the finish time. |
| `SchedulerBackoff.FailedAtOnceKeepsExactlyWhen` | controllers/cruisecontroloperation_controller.go:423-472 | A first execution that fails at once keeps the 30 s exactly when it is recorded on a whole second. |
| `SchedulerSafety.RetryQueueIsStamped` | controllers/cruisecontroloperation_controller.go:498-505 | In every reachable state, polling leaves no operation waiting for a retry without a finish time, also when a retry failed at once and its finish time had been cleared. |
| `SchedulerSafety.EveryPendingOperationIsQueued` | controllers/cruisecontroloperation_controller.go:295-320 | In every reachable state a supported operation that is not done belongs to one of the four queues. |
| `SchedulerSafety.RunKeeps` | controllers/cruisecontroloperation_controller.go:81-255 | The invariant of the scheduler holds after every sequence of user actions, clock ticks, Cruise Control progress and reconciles with failing writes. |
| `SchedulerSafety.StepKeeps` | controllers/cruisecontroloperation_controller.go:81-255 | Every single event keeps the invariant. |
| `SchedulerSafety.ReconcileKeeps` | controllers/cruisecontroloperation_controller.go:81-255 | A reconcile keeps the invariant, whatever it is asked for and whichever of its reads and writes fail. |
| `SchedulerSafety.UnblockedMeansIdle` | controllers/cruisecontroloperation_controller.go:221-226 | When the guard lets an operation pass that is not a stop, nothing of the cluster occupies Cruise Control. |
| `SchedulerSafety.PauseThenRunKeepsInv` | controllers/cruisecontroloperation_controller.go:339-353 | Pausing a failed removal of disks in favour of a rebalance keeps the invariant. |
| `SchedulerChoices.GivingWayPauses` | controllers/cruisecontroloperation_controller.go:339-353 | When a failed removal of disks leads its queue and a fresh rebalance waits, with nothing to stop and no fresh add_broker, the stored removal is paused, unchanged otherwise, done and in no queue; no other record but that of the rebalance changes; and the rebalance is sent exactly when the pause was written, nothing executes and it can be sent. |
| `SchedulerChoices.ReconcileGivesWay` | controllers/cruisecontroloperation_controller.go:169-255 | The same for a whole reconcile of a reachable state, polling included: the stored removal was not paused before and is paused and done afterwards. |
| `SchedulerChoices.PausedUntilResumed` | controllers/cruisecontroloperation_controller.go:339-364 | In every run, once an operation that has failed is paused, it is in no queue, nothing is sent for it and its status stays as it is until a user takes the pause away. |
| `SchedulerChoices.DoneIsLeft` | controllers/cruisecontroloperation_controller.go:169-183 | A reconcile sends nothing for an operation that is done and changes nothing of it but its finalizer. |
| `SchedulerChoices.ReconcileDispatches` | controllers/cruisecontroloperation_controller.go:81-219 | A reconcile sends only with a supported operation of a Kafka cluster that is there, its finalizer in place, Cruise Control ready and its tasks polled and written; then it decides on what was polled. |
| `SchedulerChoices.SentIsDue` | controllers/cruisecontroloperation_controller.go:169-255 | Whatever a reconcile sends is a stop over the running task of an operation being deleted, an operation never executed, or one that failed, is to be retried, is not paused and ended more than 30 s ago; it belongs to the cluster, is not done and is sent with the spec that is stored. |
| `SchedulerChoices.FinalizerIsAddedExactlyWhen` | controllers/cruisecontroloperation_controller.go:111-150 | An operation gets its finalizer exactly in its own reconcile, if it is supported, its Kafka cluster is there, it is not being deleted and the update takes effect. |
| `SchedulerInvariant.PolledKeeps` | controllers/cruisecontroloperation_controller.go:476-515 | Polling keeps the record of an operation sound, never makes it running and changes nothing but its status. |
| `SchedulerInvariant.ExecutedKeeps` | controllers/cruisecontroloperation_controller.go:423-472 | Recording the answer to an execution keeps the record, the bounded history and the spacing of executions sound. |
| `SchedulerDraining.QueueDrains` | controllers/cruisecontroloperation_controller.go:185-255 | From every reachable state, with no new, paused or deleted operations of the cluster and an environment that cooperates with it, whatever happens to other clusters, at most three rounds per operation bring every supported operation of the cluster to its end. |
| `SchedulerForeign.ForeignRunKeeps` | controllers/cruisecontroloperation_controller.go:169-183 | Any sequence of events about other clusters, reconciles included, leaves the operations of a cluster as they are. |
| `SchedulerDraining.RoundLightens` | controllers/cruisecontroloperation_controller.go:185-255 | A fair round strictly decreases the measure until it is zero. |
| `SchedulerDraining.RoundsDrain` | controllers/cruisecontroloperation_controller.go:185-255 | After k fair rounds the measure has fallen by k or everything is done. |
| `SchedulerWeights.DispatchLightens` | controllers/cruisecontroloperation_controller.go:204-255 | Dispatching with nothing running makes no operation heavier, and one lighter when what is pending is ready. |
| `SchedulerFinalizers.RecordOutlivesTask` | controllers/cruisecontroloperation_controller.go:192-199 | In every run, a record with the finalizer goes only in its own reconcile, when it is being deleted; unless its Kafka cluster is gone, the task that it names has then stopped, and of all tasks ever sent for it only those whose answer was not recorded or whose id a stop replaced can run. |
| `SchedulerFinalizers.SentWithFinalizerExactlyWhen` | controllers/cruisecontroloperation_controller.go:257-271 | An operation is sent with the finalizer exactly when it is the reconciled one or had it before. |
| `SchedulerInstances.SentWithoutFinalizer` | controllers/cruisecontroloperation_controller.go:147-255 | Reconciling a rebalance sends a new add_broker that has no finalizer and then runs. |
| `SchedulerInstances.GoesAfterDroppedAnswer` | controllers/cruisecontroloperation_controller.go:239-248 | A run in which the write of an answer is dropped and the record is deleted and goes while its task runs. |
| `SchedulerInstances.GoesAfterStop` | controllers/cruisecontroloperation_controller.go:323-329 | A run in which a stop's id replaces that of a running task and the record goes while that task runs. |
| `SchedulerInstances.RetryBelowThirtySeconds` | api/v1alpha1/cruisecontroloperation_types.go:206-216 | A run in which a failure recorded at 10.9 s is sent again at 40.05 s. |
| `SchedulerInstances.OverlapsAfterDroppedAnswer` | controllers/cruisecontroloperation_controller.go:221-248 | A run in which an answer is dropped and, while Cruise Control truly executes nothing, the same request is sent again, so that both tasks are live. |
| `SchedulerFinalizers.ReconcileDropsExactlyWhen` | controllers/cruisecontroloperation_controller.go:111-199 | A reconcile takes away the record of a supported operation exactly when it is its own, it is being deleted, the update takes effect, and it is done, its Kafka cluster is gone, or polling went through and shows it not running. |
| `SchedulerFinalizers.RunKeepsSent` | controllers/cruisecontroloperation_controller.go:81-255 | In every run each task that was sent for a record is known, and one that the record took down and no stop replaced has stopped unless the record names it. |
| `SchedulerExclusion.SentOnlyWhenIdle` | controllers/cruisecontroloperation_controller.go:221-226 | In every run, when a request that is not a stop is sent to a cluster, no task that a stored record follows runs, that is, none but those whose answer was not recorded, whose id a stop replaced or whose record has gone; and with a true status nothing of the cluster is in execution. |
| `SchedulerExclusion.ReconcileGuard` | controllers/cruisecontroloperation_controller.go:185-226 | When a reconcile sends a request that is not a stop, the task that any stored supported operation of the cluster names has stopped. |
| `SchedulerExclusion.TasksDoNotOverlap` | controllers/cruisecontroloperation_controller.go:221-226 | In every run, from the moment a request that is not a stop is sent, no task of the cluster that a record followed then ever runs again. |
| `SchedulerSending.ReconcileSends` | controllers/cruisecontroloperation_controller.go:81-255 | A reconcile touches only records of its cluster, sends for one of them, as a stop over its running task or after the task it names has stopped, and changes no id but that one. |
| `TrackerAndScheduler.PhaseTellsQueue` | controllers/cruisecontroltask_types.go:100-179 | In every reachable state the phase the tracker shows for an operation tells exactly which queue of the scheduler it is in, or that the scheduler is done with it. |
| `TrackerAndScheduler.AtMostOneShownRunning` | controllers/cruisecontroltask_types.go:100-179 | In every reachable state the tracker shows at most one operation of a cluster, stops aside, as running. |
| `TrackerAndScheduler.DrainedTasksAreSettled` | controllers/cruisecontroltask_controller.go:658-671 | Once the scheduler has drained, every tracked task of the cluster, updated from its operation, has succeeded or is paused. |
| `OperationResult.ExecutionIsRecorded` | controllers/cruisecontroloperation_controller.go:423-472 | The answer to an execution replaces the attempt; a failed attempt becomes, unchanged, the newest in the history, the oldest being dropped exactly when there are 50, and the retry count grows by one; request, spec and metadata stay. |
| `OperationResult.AnswerIsRecorded` | controllers/cruisecontroloperation_controller.go:423-472 | Every field of the task after an execution: id, state, request, response code and summary are those of the answer, the start time that of the answer unless one is known, the error that of the answer or of a task that has not failed; the answer is refused exactly when no start time is known. |
| `OperationResult.ByTaskIDSpec` | controllers/cruisecontroloperation_controller.go:494-497 | The polled answer for an id is the last one listed. |
| `OperationResult.PollingMovesState` | controllers/cruisecontroloperation_controller.go:423-472 | A polled answer, or a missing one as an error, changes the state, sets the finish time once and changes nothing else. |
| `OperationQueues.StableSortSpec` | controllers/cruisecontroloperation_controller.go:310-318 | The sort is a permutation in which add_broker stands before remove_broker, that before remove_disks and these before rebalance and stop, older before newer on one level, and peers in the order they had. |
| `OperationQueues.RankIsOrder` | controllers/cruisecontroloperation_controller.go:58-63 | Comparing priorities and creation times is exactly the order written out by kind and age. |
| `OperationQueues.QueueSpec` | controllers/cruisecontroloperation_controller.go:295-320 | A queue holds exactly the operations of its class, in that order, peers as they were listed. |
| `OperationQueues.SelectIsFilter` | controllers/cruisecontroloperation_controller.go:297-308 | The operations of a class are picked in the order in which they come. |
| `OperationQueues.HeadSpec` | controllers/cruisecontroloperation_controller.go:367-372 | The head of a queue is the one operation of its class that may stand before all others and comes first among its peers. |
| `OperationQueues.FinalizingFirst` | controllers/cruisecontroloperation_controller.go:323-333 | When an operation waits for finalization, the first such one is chosen, turned into a stop. |
| `OperationQueues.AddBrokerSecond` | controllers/cruisecontroloperation_controller.go:335-338 | Otherwise a fresh add_broker is chosen if there is one, and none of them is older. |
| `OperationQueues.RetryThenFresh` | controllers/cruisecontroloperation_controller.go:339-364 | Otherwise: the leading fresh rebalance, with the leading failed operation paused, exactly when that is a remove_disks and a fresh rebalance waits; else the leading failed operation exactly when its back-off has elapsed; else the leading fresh one; nothing exactly when there is none of these. |
| `OperationQueues.ChoiceIsSound` | controllers/cruisecontroloperation_controller.go:323-364 | What is chosen comes from the queue that it should come from. |
| `RefreshStage.RefreshStageSpec` | controllers/cruisecontroloperation_controller.go:476-515 | After polling, every stored operation is as it was or as polled, and all are as polled when no write failed. |
| `RefreshStage.PolledTellsState` | controllers/cruisecontroloperation_controller.go:476-515 | Polling shows what Cruise Control says about the task of an operation that is not done, an error when it says nothing, and notes once when the task was found to have ended. |
| `RefreshStage.WritesStopAt` | controllers/cruisecontroloperation_controller.go:507-513 | All status writes succeed exactly when there are no more of them than may; otherwise everything before the first that fails is written and nothing behind it. |
| `ReconcileStep.EligibleIsFilter` | controllers/cruisecontroloperation_controller.go:169-183 | The operations of the cluster that are supported and not done come in the order of the listing. |
| `OperationObjects.OperationRef.SetDefaults` | api/v1alpha1/cruisecontroloperation_types.go:115-124 | Everything the last execution left is cleared; kind and parameters stay. |
| `OperationObjects.OperationRef.UpdateResult` | controllers/cruisecontroloperation_controller.go:423-472 | The object afterwards is the value that the laws are about. |
| `OperationObjects.SortOperations` | controllers/cruisecontroloperation_controller.go:295-320 | The four queues are those of the values, and hold only operations that were given. |
| `OperationObjects.SortByRank` | controllers/cruisecontroloperation_controller.go:310-318 | Sorting the objects sorts their values stably. |
| `OperationController.Reconciler.UpdateCurrentTasks` | controllers/cruisecontroloperation_controller.go:476-515 | Objects and store afterwards are those of the polled values, up to the first write that fails. |
| `OperationController.Reconciler.SelectForExecution` | controllers/cruisecontroloperation_controller.go:323-364 | The selected object, its kind and the pause that was written realise the choice on values. |
| `OperationController.Reconciler.Execute` | controllers/cruisecontroloperation_controller.go:228-293 | The answer is recorded in the store unless the execution or the write failed. |
| `OperationController.Reconciler.Dispatch` | controllers/cruisecontroloperation_controller.go:204-255 | Sorting, selecting, guarding and executing refine the value-level dispatch. |
| `OperationController.Reconciler.Schedule` | controllers/cruisecontroloperation_controller.go:169-255 | Polling, dropping the finalizer of a stopped operation and dispatching refine the value-level step. |
| `OperationController.Reconciler.Reconcile` | controllers/cruisecontroloperation_controller.go:81-255 | A whole reconcile leaves the store, and sends what, the value-level step says. |
| `TaskTracking.ExtractThenSyncIsIdentity` | controllers/cruisecontroltask_controller.go:603-654 | Extracting the active tasks and writing them straight back changes nothing. |
| `TaskTracking.ActiveTasksAre` | api/v1beta1/common_types.go:72-165 | The tasks of a status are exactly one for each broker being added or removed and one for each volume being filled or emptied that has not succeeded, with the state and operation shown. |
| `TaskTracking.MissingMeansDone` | controllers/cruisecontroltask_controller.go:658-671 | A task without an operation is left alone, one whose operation is gone has succeeded, and one whose operation waits or runs has not. |
| `TaskTracking.ReExtraction` | controllers/cruisecontroltask_types.go:100-179 | After updating the tasks from their operations and writing them back, extraction yields exactly the updated tasks that have not succeeded. |
| `TaskTracking.SyncIgnoresOrder` | controllers/cruisecontroltask_types.go:219-223 | Writing tasks back gives the same status in every order of the tasks. |
| `TaskTracking.SyncTwice` | controllers/cruisecontroltask_types.go:219-223 | Writing the tasks back a second time changes nothing. |
| `TaskTracking.SyncSpec` | controllers/cruisecontroltask_types.go:52-74 | Writing back sets the cells of the tasks that still exist and nothing else; no broker or volume appears or vanishes. |
| `TaskTracking.UpdatedKeepsSlots` | controllers/cruisecontroltask_controller.go:658-671 | Updating keeps the tasks about distinct brokers and volumes. |
| `TaskTracker.GetActiveTasksFromCluster` | controllers/cruisecontroltask_controller.go:603-654 | For every order in which the maps are walked, the container holds each active task once. |
| `TaskTracker.TaskRef.FromResult` | controllers/cruisecontroltask_types.go:100-179 | The task takes over the phase of its operation, by its own kind. |
| `TaskTracker.TaskRef.Apply` | controllers/cruisecontroltask_types.go:52-74 | The task is written into the status unless its broker or volume has gone. |
| `TaskTracker.TaskRef.Schedule` | controllers/cruisecontroltask_types.go:76-95 | The task refers to the new operation and is in its scheduled state. |
| `TaskTracker.TasksAndStates.Add` | controllers/cruisecontroltask_types.go:188-194 | The task is appended and the index by kind stays in step with the list. |
| `TaskTracker.TasksAndStates.GetActiveTasksByOp` | controllers/cruisecontroltask_types.go:202-210 | The index finds exactly the waiting tasks of a kind, in order. |
| `TaskTracker.IndexIsEnough` | controllers/cruisecontroltask_types.go:182-210 | Looking through the index finds what looking through all tasks would. |
| `TaskTracker.TasksAndStates.SyncState` | controllers/cruisecontroltask_types.go:219-223 | The status afterwards has every task written into it. |
| `TaskTracker.TasksAndStates.UpdateActiveTasks` | controllers/cruisecontroltask_controller.go:658-671 | Every task with a reference is updated from its operation, or as done when it is missing; others stay. |
| `TaskTracker.ByNameSpec` | controllers/cruisecontroltask_controller.go:658-671 | Every operation is found under its own name. |
| `TaskTracker.TasksAndStates.ScheduleNext` | controllers/cruisecontroltask_controller.go:125-312 | Through the index, exactly the tasks that the scheduling switch picks are scheduled in the shared list. |
| `TaskScheduling.SchedulingIsExclusive` | controllers/cruisecontroltask_controller.go:125-312 | A new operation is shared only by tasks of one kind, a removed broker has one of its own, and no task that was not waiting changes. |
| `TaskScheduling.WaitingIsBehind` | controllers/cruisecontroltask_controller.go:125-312 | A waiting task stays waiting exactly when another kind goes first or an earlier broker is being removed. |
| `TaskScheduling.SwitchOrder` | controllers/cruisecontroltask_controller.go:125-312 | A waiting add_broker task is always scheduled; a remove_broker task exactly when no add_broker waits and no earlier broker is to be removed; a remove_disks task exactly when neither of these waits; a rebalance task exactly when none of the three waits; each with its scheduled state and the new operation, and every other task stays as it is. |
| `StatusStore.UpdateStatus` | controllers/cruisecontroltask_controller.go:526-554 | With arbitrary other writers and stale reads: at most six updates; on success nothing had to change, or exactly one version was written, and the tasks are merged into the stored version that the cluster object holds; every version written merges the tasks into exactly the version it replaced; a conflict error means that nothing was written. |
| `StatusStore.Attempt` | pkg/util/util.go:583-605 | One attempt writes at most once, and after a conflict holds a stored version with the tasks merged in. |
| `StatusStore.WritesTouchOnlyTasks` | controllers/cruisecontroltask_types.go:52-74 | A written version has the brokers, volumes and other fields of the version it replaced and differs only where a task says so. |
| `StatusStore.Reconcile` | controllers/cruisecontroltask_controller.go:68-318 | A whole reconcile writes at most twice six times, and only merges of the updated or the scheduled tasks; on success the cluster object holds a stored version into which the tasks, as scheduled, are merged, also when no broker is left to add. |
| `StatusStore.ReconcileTouchesOnlyActive` | controllers/cruisecontroltask_controller.go:68-318 | Whatever others write meanwhile, only cells that were active tasks at the start change, and nothing deleted comes back. |
| `BrokerStatusUpdate.UpdateBrokerStatus` | pkg/k8sutil/status.go:97-132 | With arbitrary other writers and stale reads: at most two attempts, each falling back to an update of the whole object when the status is not found; every version written makes the change in exactly the version it replaced; a success wrote exactly one version, or none when an update of the status was not found, and nothing is written when all of them were. |
| `BrokerStatusUpdate.GenerateBrokerState` | pkg/k8sutil/status.go:134-181 | The loop makes the change for the named brokers one after the other. |
| `BrokerStatusUpdate.GeneratedSpec` | pkg/k8sutil/status.go:134-181 | Exactly the named brokers are changed, each once, and created when they are missing; no other broker is touched. |
| `BrokerStatusUpdate.GeneratedFields` | pkg/k8sutil/status.go:134-181 | A graceful action replaces state, operation and volumes, and is cleared for a broker that the change does not mention; setting volumes keeps the volumes that it does not mention; every other field stays. |
| `BrokerStatusUpdate.GeneratedTwice` | pkg/k8sutil/status.go:134-181 | Making a change again changes nothing. |
| `BrokerStatusUpdate.WritersCommuteExactlyWhen` | pkg/k8sutil/status.go:134-181 | The task tracker and a writer of other fields give the same status in either order exactly when no task gives a state to a broker that the other writer creates. |
| `Escaping.EscapeSeparators` | properties/pkg/utils.go:82-124 | The loop computes the escaped text and never slices out of range. |
| `Escaping.UnescapeSeparators` | properties/pkg/utils.go:37-79 | The loop computes the unescaped text and never slices out of range. |
| `Escaping.GetSeparator` | properties/pkg/utils.go:128-173 | The position is that of the first separator that is not escaped; none is reported exactly when there is none. |
| `Escaping.EscapeRoundTrip` | properties/pkg/utils.go:37-124 | Unescaping undoes escaping exactly when the key has no escape directly before a separator. |
| `Escaping.EscapeIdempotent` | properties/pkg/utils.go:82-124 | Escaping twice is escaping once, for every text. |
| `Escaping.SeparatorOfPrinted` | properties/pkg/utils.go:128-173 | The first unescaped separator of an escaped key followed by `=` is that `=` exactly when the key does not end in an escape. |
| `PropertyList.PutSpec` | properties/pkg/properties.go:151-157 | Putting replaces in place or appends, and changes no other binding. |
| `PropertyList.DeleteSpec` | properties/pkg/properties.go:160-170 | Deleting removes one key and keeps order and bindings of the others. |
| `PropertyList.MergeSpec` | properties/pkg/properties.go:182-211 | Merging keeps the order of the first, appends the new keys of the second in their order and takes the second's bindings. |
| `PropertyList.WithoutIsFilter` | properties/pkg/properties.go:182-211 | The keys that a merge appends come in the order of the second. |
| `PropertyList.MergeDefaultsSpec` | properties/pkg/properties.go:182-211 | Merging defaults fills only what is missing or empty. |
| `PropertyList.MergeAssociative` | properties/pkg/properties.go:173-211 | Merging is associative, order included. |
| `PropertyOrder.EqualMeansAgreement` | properties/pkg/properties.go:216-254 | Equal holds exactly when both bind the same keys to the same values. |
| `PropertyOrder.EqualIffNoDiff` | properties/pkg/properties.go:318-369 | Equal holds exactly when the difference is empty. |
| `PropertyOrder.InDiff` | properties/pkg/properties.go:318-369 | A key is in the difference exactly when the two disagree on it, with the property of each side or an empty one. |
| `PropertyOrder.SortSpec` | properties/pkg/properties.go:256-278 | Sorting orders the keys and changes no binding. |
| `PropertyOrder.LessIsLexicographic` | properties/pkg/properties.go:256-278 | The order of keys: a key comes before another that goes on where it ends, or that has the greater character where they first differ. |
| `PropertyOrder.SortIsCanonical` | properties/pkg/properties.go:256-278 | Equal sets become the same keys and values in the same order. |
| `PropertyText.PrintParseRoundTrip` | properties/pkg/properties.go:281-294 | Parsing the printed text of printable properties gives an equal object with the same key order. |
| `PropertyText.PlainIsPrintedAsIs` | properties/pkg/properties.go:281-294 | A key without separators is printed as it is, followed by an equals sign and the value. |
| `PropertyLines.ContinuedReadsAsJoined` | properties/pkg/utils.go:193-241 | Anywhere in a text, lines of which all but the last end in an escape read as the single line that they make in their order without those escapes. |
| `PropertyLines.LineGivesProperty` | properties/pkg/utils.go:280-295 | A line is split at its first `=`, `:` or space without an escape before it, into the key and the value, both trimmed. |
| `PropertyLines.CommentsChangeNoBinding` | properties/pkg/utils.go:209-215 | Comment lines anywhere in a text, also between the parts of a property, change no key, no value and no error. |
| `PropertyLines.CommentsAreKept` | properties/pkg/utils.go:209-240 | After a blank line, comment lines become the comment of the property that follows, in their order. |
| `PropertyLines.BlankDiscards` | properties/pkg/utils.go:201-207 | A blank line or the end of the text discards what was begun: parts of a property and comments. |
| `PropertyText.SortedTextIsCanonical` | properties/pkg/properties.go:216-294 | Equal sets print the same text once sorted, and printable sets with the same sorted text are equal. |
| `PropertyRoundTrip.SurvivesIffPrintable` | properties/pkg/utils.go:193-241 | A property survives printing and parsing exactly when it is printable. |
| `PropertiesObject.Properties.Len` | properties/pkg/properties.go:118-123 | The number of entries of the list. |
| `PropertiesObject.Properties.Put` | properties/pkg/properties.go:143-157 | The two maps and the counter afterwards represent the list with the property put. |
| `PropertiesObject.Properties.Delete` | properties/pkg/properties.go:160-170 | The object afterwards represents the list without the key. |
| `PropertiesObject.Properties.OrderedKeys` | properties/pkg/properties.go:93-115 | The keys come in list order, whatever order the map is walked in. |
| `PropertiesObject.Properties.Merge` | properties/pkg/properties.go:173-211 | The object afterwards represents the merged list. |
| `PropertiesObject.Properties.MergeDefaults` | properties/pkg/properties.go:178-211 | The object afterwards represents the list with defaults merged in. |
| `PropertiesObject.Properties.Equal` | properties/pkg/properties.go:216-254 | The answer is that of the lists; never equal to nil. |
| `PropertiesObject.Properties.Diff` | properties/pkg/properties.go:318-369 | The keys on which the two disagree, with both properties. |
| `PropertiesObject.Properties.Sort` | properties/pkg/properties.go:256-278 | The object afterwards represents the sorted list. |
| `PropertiesObject.Properties.String` | properties/pkg/properties.go:281-294 | The text is the printed list. |
| `PropertiesObject.NewPropertyFromString` | properties/pkg/utils.go:280-295 | One logical line is split at its first separator, unescaped and trimmed, or refused. |
| `PropertiesObject.ParseLines` | properties/pkg/utils.go:193-241 | The two buffers of the parser compute the list of the specification, with comments and continuations. |
| `PropertiesObject.NewFromString` | properties/pkg/utils.go:249-252 | The object represents the parsed list, or none on an error. |
| `BrokerConfig.MergeMountPaths` | pkg/resources/kafka/configmap.go:296-317 | The new paths, then every old path that is not among them; and whether one was removed. |
| `BrokerConfig.MissingIsFilter` | pkg/resources/kafka/configmap.go:296-317 | The old paths that are no longer asked for stay in their order. |
| `BrokerConfig.GetMountPaths` | pkg/resources/kafka/configmap.go:376-391 | The paths of the old config map, none when it has none. |
| `BrokerConfig.GenerateStorageConfig` | pkg/resources/kafka/configmap.go:393-399 | One log directory for each mount path, in order. |
| `BrokerConfig.MergeSuperUsers` | pkg/resources/kafka/configmap.go:538-572 | The users of both sides when both have some and one is new, and nothing otherwise. |
| `BrokerConfig.AddUsersSpec` | pkg/resources/kafka/configmap.go:550-568 | The users of the target in their order, then those of the source that are new, each once and in the order of the source. |
| `BrokerConfig.SetStorageAndUsers` | pkg/resources/kafka/configmap.go:77-103 | log.dirs and super.users are set in the operator's entries when there is something to set. |
| `BrokerConfig.GenerateBrokerConfig` | pkg/resources/kafka/configmap.go:574-602 | The text is the printed, sorted merge of the read-only and the operator's entries. |
| `LogDirs.LogDirsNeverShrink` | pkg/resources/kafka/configmap.go:77-103 | Over any sequence of spec changes, through merging, sorting, printing and parsing again, no path ever leaves log.dirs and every path ever asked for is in it. |
| `LogDirs.NextTextKeepsPaths` | pkg/resources/kafka/configmap.go:574-602 | One pass keeps all old paths and adds those of the storage. |
| `ConfigBindings.NextTextBindings` | pkg/resources/kafka/configmap.go:574-602 | The generated text read back: super.users holds the operator's users in order and then the read-only ones that are new, each once; every other entry of the operator keeps its value, and so does every read-only entry that the operator does not set; neither migration flag is bound. |
| `ConfigBindings.NextTextPaths` | pkg/resources/kafka/configmap.go:77-103 | The generated text read back: log.dirs holds one directory for each mount in order, then the old paths that are not among them in order. |
| `LogDirs.MountPathsOfPrinted` | pkg/resources/kafka/configmap.go:376-391 | Reading log.dirs back from the printed configuration gives its paths. |
| `ScaleParameters.LogDirsRoundTrip` | controllers/cruisecontroltask_controller.go:430-438 | For every order in which the map is walked, parsing the printed text restores the log dirs of every broker that has one, in order, exactly when no log dir holds a comma. |
| `ScaleParameters.BrokerIdsRoundTrip` | controllers/cruisecontroltask_controller.go:425-450 | A printed list of ids is parsed back exactly when it is not empty and every id fits 32 bits. |
| `ScaleParameters.NumbersAreIds` | controllers/cruisecontroltask_controller.go:430-438 | Ids written as numbers of 32 bits meet what the round trip asks of ids. |
| `ScaleParameters.PrintLogDirs` | controllers/cruisecontroltask_controller.go:430-438 | The printed text lists each broker's log dirs, brokers in some order. |
| `ScaleParameters.ParseLogDirs` | pkg/scale/scale.go:664-691 | The loop computes the map of the specification, or fails when a pair is malformed. |
| `ScaleParameters.ParseBrokerIds` | pkg/scale/scale.go:276-287 | The loop computes the ids, or fails when one is malformed. |
| `ScaleParameters.ItoaParses` | pkg/scale/scale.go:276-287 | A written id parses back exactly when it fits 32 bits. |
| `BrokerDisks.DisksAgree` | pkg/resources/cruisecontrol/configmap.go:327-362 | Cruise Control is told exactly the paths that the broker mounts, and the same disk at a path exactly when the first and last entry for it in the deciding list are the same. |
| `BrokerDisks.DisksAgreeWhenDistinct` | api/v1beta1/kafkacluster_types.go:1328-1361 | The same disk at every path, when no list names a path twice. |
| `BrokerDisks.LogDirsAgree` | pkg/resources/kafka/configmap.go:393-399 | The log dirs Cruise Control is told are those the broker is configured with. |
| `BrokerDisks.DedupStorageConfigs` | api/v1beta1/kafkacluster_types.go:1390-1402 | Distinct paths, the same set of paths, and the first disk of each. |
| `BrokerDisks.GetBrokerConfig` | api/v1beta1/kafkacluster_types.go:1328-1361 | The broker's own disks before those of its group; an error exactly when the group is missing. |
| `BrokerDisks.GenerateBrokerDisks` | pkg/resources/cruisecontrol/configmap.go:327-362 | One log dir with its size for each disk; an error exactly when some disk is below the minimum. |
| `BrokerDisks.DuplicatePathDisagrees` | pkg/resources/cruisecontrol/configmap.go:327-362 | A path listed twice with different sizes: the first is mounted, the last is told. |
| `AlertSafety.LimitsHold` | internal/alertmanager/currentalert/process.go:92-182 | Over every run over any clusters without another writer of specs, with reads that do not go back within a handling, broker ids stay distinct and admissible and a broker count within the limits stays within them. |
| `AlertSafety.UpperLimitHolds` | internal/alertmanager/currentalert/process.go:92-182 | Over every run without another writer of specs, whatever the caches show and whichever reads and writes fail, a broker count within the upper limit stays within it. |
| `AlertSafety.CountsHoldWhileDistinct` | internal/alertmanager/currentalert/process.go:92-182 | The same for both limits, as long as the broker ids are distinct. |
| `AlertSafety.CheckedIsLatest` | internal/alertmanager/currentalert/process.go:92-117 | The spec on which the limits are checked is the latest one, because the status of that version was just written. |
| `AlertSafety.LimitsBreakOnlyByOthers` | internal/alertmanager/currentalert/process.go:92-182 | A change of the number of brokers meets the limits in the version that it replaces unless somebody else wrote that cluster between check and change. |
| `AlertSafety.ChangesOncePerAlert` | internal/alertmanager/currentalert/current_alerts.go:82-145 | Between two spec changes made for the same alert, that alert was resolved or the answer to the first write was lost, for every run, with stale reads and other writers. |
| `AlertSafety.ChangeProcesses` | internal/alertmanager/currentalert/current_alerts.go:120-145 | An alert that changed the spec is processed exactly when the answer to the write arrived. |
| `AlertOthers.UpScaleIsSafeExactlyWhen` | internal/alertmanager/currentalert/process.go:344-421 | A committed upscale keeps ids distinct exactly when the planned id is unused in the version replaced, and the limits exactly when that version is below its limit. |
| `AlertOthers.DownScaleIsSafeExactlyWhen` | internal/alertmanager/currentalert/process.go:303-342 | A committed downscale keeps the ids, and the limits exactly when it removes nothing or the version replaced is above its limit. |
| `AlertChanges.UpScaleChangesExactlyWhen` | internal/alertmanager/currentalert/process.go:344-421 | An upscale changes the spec exactly when the check passed below the limit, the spec was read, no broker has a task and the change can be committed; it then keeps all brokers in order and adds one whose id follows the highest; a busy cluster is not scaled. |
| `AlertChanges.DownScaleChangesExactlyWhen` | internal/alertmanager/currentalert/process.go:303-342 | A downscale changes the spec exactly when the check passed above the limit, the spec was read, no broker has a task, a broker is known and the change can be committed; it then removes the broker that the alert names, or the least loaded one when it names none, and keeps the others in order; a busy cluster is not scaled. |
| `AlertChanges.ChangedIsReached` | internal/alertmanager/currentalert/process.go:92-121 | Nothing is changed unless the status was written and the cluster is running. |
| `AlertChanges.OtherCommandsChange` | internal/alertmanager/currentalert/process.go:123-182 | Commands about claims keep the brokers, their order and the limits; a test counts as processed and an unknown command is skipped, and both change nothing. |
| `AlertChanges.CheckSucceedsExactlyWhen` | pkg/k8sutil/status.go:278-322 | The check is reached exactly when the first write of the status succeeds, or conflicts and the second one succeeds. |
| `AlertChanges.StoredAlertsStay` | internal/alertmanager/currentalert/current_alerts.go:82-145 | A stored alert keeps what it says until it is resolved. |
| `AlertOthers.RunIsSafeExactlyWhen` | internal/alertmanager/currentalert/process.go:92-182 | In a run among other writers every version ever written has distinct ids and a count within its limits exactly when those at the start and those of the others do and each change made for an alert meets its guard in the version that it replaces. |
| `AlertOthers.UninterruptedMeetsGuard` | internal/alertmanager/currentalert/process.go:92-182 | A handling whose reads do not go back meets its guard unless somebody else wrote its cluster between the check of the limits and the change. |
| `AlertOthers.OtherWriterOverruns` | internal/alertmanager/currentalert/process.go:344-421 | Another writer adds a broker between the check and the change of an upscale, which then exceeds the limit and repeats an id. |
| `AlertOthers.OtherWriterUnderruns` | internal/alertmanager/currentalert/process.go:303-342 | Another writer removes a broker between the check and the change of a downscale, which then falls below the limit. |
| `AlertOthers.LostAnswerChangesTwice` | internal/alertmanager/currentalert/current_alerts.go:120-145 | An upscale whose answer is lost is done again for the same alert. |
| `AlertSafety.WithoutSpec` | pkg/k8sutil/cr.go:93-107 | With distinct ids, removing a broker removes at most one and keeps ids distinct. |
| `AlertScaling.Biggest` | internal/alertmanager/currentalert/process.go:361-366 | The result is at least every id, and is an id or 0. |
| `AlertController.BiggestId` | internal/alertmanager/currentalert/process.go:361-366 | The loop finds the highest id, or 0. |
| `AlertController.FilterBrokers` | pkg/k8sutil/cr.go:93-107 | Filtering over its own array leaves the kept brokers in order at its front. |
| `AlertController.ScaleDown` | internal/alertmanager/currentalert/process.go:303-342 | The server afterwards is that of the value-level downscale. |
| `AlertController.ScaleUp` | internal/alertmanager/currentalert/process.go:344-421 | The server afterwards is that of the value-level upscale. |
| `AlertController.CheckCluster` | pkg/k8sutil/status.go:278-322 | Reading the cluster and writing its status, once more after a conflict, give the spec of the value-level check. |
| `AlertController.ExamineAlert` | internal/alertmanager/currentalert/process.go:92-121 | Writing the status, checking the limits on the version it was made from, and processing refine the value-level examination. |
| `AlertController.CurrentAlerts.AddAlert` | internal/alertmanager/currentalert/current_alerts.go:82-93 | An alert is stored as not processed unless it is stored already. |
| `AlertController.CurrentAlerts.AlertGC` | internal/alertmanager/currentalert/current_alerts.go:110-118 | A resolved alert is removed. |
| `AlertController.CurrentAlerts.Handle` | internal/alertmanager/currentalert/current_alerts.go:120-145 | A stored alert is examined unless it is processed, and is processed exactly when the examination says so without an error. |
| `AlertController.CurrentAlerts.Dispatch` | internal/alertmanager/dispatcher/dispatcher.go:28-51 | A dispatch is a run: all deliveries, then each stored alert handled once, in some order. |
| `EnvoyPorts.AcceptedSpecHasDistinctPorts` | pkg/resources/envoy/deployment.go:124-136 | For every accepted spec with Envoy ingress, the container of a load balancer listener without its own Envoy config has pairwise distinct ports. |
| `EnvoyPorts.EnvoyPortsDistinctExactlyWhen` | pkg/resources/envoy/deployment.go:150-183 | The ports are distinct exactly when target, admin and health port differ and no exposed broker port is one of them. |
| `EnvoyPorts.OverrideMayCollide` | pkg/util/util.go:288-315 | An accepted spec with an Envoy config of a listener that gives two equal ports. |
| `EnvoyPorts.BrokerPortsDiffer` | api/v1beta1/kafkacluster_types.go:616-622 | With 32-bit addition, different brokers of an admitted spec have different ports. |
| `EnvoyPorts.ExposedPortIsChecked` | pkg/resources/envoy/deployment.go:150-183 | The port exposed for a broker is the one that the webhook checks: the starting port plus the id. |
| `EnvoyPorts.ServedExactlyWhen` | pkg/util/util.go:269-285 | A mere controller is served by no ingress config; any other broker by those it is mapped to, or by the default one, or by every one when there is no default, and by any that served it before. |
| `EnvoyPorts.PortsInUse` | pkg/util/util.go:288-315 | Each Envoy port is the listener's own, or else the cluster's, or else the default. |
| `EnvoyPorts.CheckUniqueListenerContainerPort` | pkg/webhooks/kafkacluster_validator.go:113-133 | Reports exactly the listeners whose port occurs earlier: as many as there are listeners more than distinct ports. |
| `EnvoyPorts.RepeatsCount` | pkg/webhooks/kafkacluster_validator.go:113-133 | The repeats number listeners minus distinct ports, and are none exactly when all differ. |
| `EnvoyPorts.CheckListener` | pkg/webhooks/kafkacluster_validator.go:136-178 | Exactly the brokers whose external port is out of range, and exactly those whose port collides. |
| `EnvoyPorts.CheckExternalListenerStartingPort` | pkg/webhooks/kafkacluster_validator.go:136-178 | No error exactly when every external port of every listener is in range and free. |
| `EnvoyPorts.CheckTargetPortsCollisionForEnvoy` | pkg/webhooks/kafkacluster_validator.go:181-221 | No error exactly when, with Envoy, admin and health port differ and no load balancer's target port is one of them. |
| `EnvoyPorts.Validate` | pkg/webhooks/kafkacluster_validator.go:85-107 | A spec is accepted exactly when container ports differ, external ports are in range and free, and target ports are free. |
| `EnvoyPorts.GetBrokerIds` | pkg/util/util.go:177-202 | The ids of spec and status, each once, in ascending order. |
| `EnvoyPorts.GetExposedContainerPorts` | pkg/resources/envoy/deployment.go:150-183 | The ports of the brokers to expose, in order, then the target port. |
| `EnvoyPorts.DeploymentPorts` | pkg/resources/envoy/deployment.go:124-136 | All ports of the container, for the ids of spec and status. |

## Left out

- LogDirs.LogDirsNeverShrink: assumes that the old config map is read and that entries and paths can be printed and read back; otherwise the text itself loses them.
- ConfigBindings.NextTextBindings: assumes entries, users and paths that can be printed and read back, as LogDirs.LogDirsNeverShrink does.
- SchedulerDraining.QueueDrains: assumes that every started task of the cluster completes and that no write for it fails; without that the queue need not drain.
- AlertSafety.LimitsHold: assumes no other writer of the spec and reads that do not go back within a handling; for runs with other writers AlertOthers.RunIsSafeExactlyWhen gives the exact condition.
- EnvoyPorts.AcceptedSpecHasDistinctPorts: assumes that the listener's own Envoy config does not change the ports, because the webhook does not check it.
- BrokerDisks.GetBrokerConfig: only the storage part of the config; affinity, environment variables and the merge of other fields would only add easy members.
- The status requests of the operation controller (getStatus and its operations): bookkeeping of their own; readiness and execution flags are inputs of a reconcile.
- The queue map of sortOperations is a record of its four queues.
- A finish time is in whole seconds from the moment it is set, and not only once it is stored; within one reconcile that makes no difference, as an operation just stamped is not ready either way.
- Finalizers of other controllers: an operation keeps or loses one finalizer, that of this controller.
- The read-only config of a broker is an input; its own parsing from the two spec fields is not modelled.
- Non-ASCII property text and lines beyond the scanner's token limit; property values other than strings; list and number conversions.
- Reflection-based marshalling of properties, JSON, backups in annotations.
- Matching volumes to log dirs by prefix, JBOD detection and the filter for controller-only nodes decide whether an operation is created; the model takes that outcome as an input of the scheduling switch.
- The backup update and the deletion of broker states (pkg/k8sutil/status.go): the same pattern as the two status writers that are modelled.
- Claim commands of alerts: what they do to a broker's storage is an arbitrary new config; only that they keep ids and count is modelled. Rolling-upgrade counts are a status write that may fail.
- Mutexes of the properties and of the alert store: each method is one step.
- Kubernetes object builders, PKI, HTTP clients of Cruise Control and Kafka, the KafkaTopic and KafkaUser controllers.
