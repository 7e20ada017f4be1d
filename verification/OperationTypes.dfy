/**
 The CruiseControlOperation resource of api/v1alpha1: its task record and the
 state predicates the controllers are written in terms of.

 Times are integers in nanoseconds.  `Operation` is the value the API server
 stores; `OperationRef` (OperationObjects.dfy) is the object a reconcile mutates.
 */
module OperationTypes {
  import opened Wrappers

  /** Wait between two executions of a failed task: 30 s. */
  const RETRY_BACKOFF: int := 30_000_000_000

  const SECOND: int := 1_000_000_000

  /** A time as the API server stores it: in whole seconds. */
  function WholeSeconds(t: int): (r: int)
    ensures r <= t < r + SECOND
  {
    t - t % SECOND
  }

  datatype Kind =
    | NoKind
    | StopExecution
    | AddBroker
    | RemoveBroker
    | RemoveDisks
    | Rebalance
    | StatusRequest
    | Unsupported(text: string)

  datatype TaskState = NoState | Active | InExecution | Completed | CompletedWithError

  datatype ErrorPolicy = NoPolicy | Ignore | Retry

  predicate IsRunningState(s: TaskState) {
    s == Active || s == InExecution
  }

  predicate IsTerminalState(s: TaskState) {
    s == Completed || s == CompletedWithError
  }

  predicate IsSupported(k: Kind) {
    k in {AddBroker, Rebalance, RemoveBroker, StopExecution, RemoveDisks}
  }

  datatype Task = Task(
    id: string,
    started: Option<int>,
    finished: Option<int>,
    kind: Kind,
    parameters: map<string, string>,
    httpRequest: string,
    httpResponseCode: Option<int>,
    summary: Option<map<string, string>>,
    state: TaskState,
    errorMessage: string)
  {
    /** What SetDefaults leaves: only the kind and its parameters survive. */
    function Defaulted(): Task {
      Task("", None, None, kind, parameters, "", None, None, NoState, "")
    }
  }

  datatype ObjectMeta = ObjectMeta(
    name: string,
    cluster: string,   // the Kafka cluster label; "" when it is missing
    paused: bool,      // the pause label is "true"
    created: int,      // creation time in Unix seconds
    deleting: bool,    // the deletion timestamp is set
    finalizer: bool)   // the controller's finalizer is present

  datatype OperationSpec = OperationSpec(errorPolicy: ErrorPolicy)

  datatype OperationStatus = OperationStatus(
    currentTask: Option<Task>,
    errorPolicy: ErrorPolicy,
    retryCount: nat,
    failedTasks: seq<Task>)

  datatype Operation = Operation(meta: ObjectMeta, spec: OperationSpec, status: OperationStatus) {

    function CurrentTaskState(): TaskState {
      if status.currentTask.Some? then status.currentTask.value.state else NoState
    }

    function CurrentTaskID(): string {
      if status.currentTask.Some? then status.currentTask.value.id else ""
    }

    function CurrentTaskFinished(): Option<int> {
      if status.currentTask.Some? then status.currentTask.value.finished else None
    }

    function CurrentTaskKind(): Kind {
      if status.currentTask.Some? then status.currentTask.value.kind else NoKind
    }

    predicate IsValid() {
      IsSupported(CurrentTaskKind())
    }

    predicate IsWaitingForFirstExecution() {
      CurrentTaskState() == NoState && CurrentTaskID() == "" && status.retryCount == 0
    }

    predicate IsInProgress() {
      CurrentTaskID() != "" && IsRunningState(CurrentTaskState())
    }

    predicate IsFinished() {
      CurrentTaskState() == Completed ||
      (spec.errorPolicy == Ignore && CurrentTaskState() == CompletedWithError)
    }

    predicate IsDone() {
      (meta.paused && CurrentTaskState() == CompletedWithError) || IsFinished()
    }

    predicate IsWaitingForRetryExecution() {
      !meta.paused && spec.errorPolicy == Retry &&
      CurrentTaskState() == CompletedWithError && CurrentTaskID() != ""
    }

    predicate IsReadyForRetryExecution(now: int) {
      IsWaitingForRetryExecution() && CurrentTaskFinished().Some? &&
      CurrentTaskFinished().value + RETRY_BACKOFF < now
    }

    predicate IsCurrentTaskRunning() {
      IsRunningState(CurrentTaskState()) && CurrentTaskFinished().None?
    }

    predicate IsFinalizerNeeded() {
      meta.finalizer && meta.deleting
    }

    predicate IsWaitingForFinalization() {
      IsCurrentTaskRunning() && meta.deleting && meta.finalizer
    }
  }

  /** An answer of Cruise Control; `startedAt` is None when its date does not parse. */
  datatype TaskResult = TaskResult(
    taskId: string,
    startedAt: Option<int>,
    responseStatusCode: int,
    requestURL: string,
    summary: Option<map<string, string>>,
    state: TaskState,
    error: Option<string>)

  const MISSING_RESULT_ERROR := "missing Cruise Control user task result"
  const FAILED_TASKS_MAX: nat := 50
}
