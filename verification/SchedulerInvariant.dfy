/** The invariant of every run of the scheduler. */
module SchedulerInvariant {
  import opened Wrappers
  import opened OperationTypes
  import opened OperationResult
  import opened OperationQueues
  import opened ReconcileStep
  import opened RefreshStage
  import opened SchedulerWorld

  /** The last n elements of s, or all of them. */
  function Last<T>(s: seq<T>, n: nat): seq<T> {
    if |s| <= n then s else s[|s| - n..]
  }

  ghost predicate IsFailedAttempt(task: Task) {
    task.state == CompletedWithError && task.finished.Some?
  }

  /** The end of an execution recorded at the given time is noted in whole seconds, those of the recording or later. */
  ghost predicate IsNoted(finished: Option<int>, recorded: int) {
    finished.Some? && finished.value % SECOND == 0 && WholeSeconds(recorded) <= finished.value
  }

  /** The next execution was sent more than the back-off after the noted end of the i-th one, which failed. */
  ghost predicate IsSpacedAt(attempts: seq<Task>, runs: seq<Timing>, i: int)
    requires 0 <= i < |runs| - 1
  {
    && i < |attempts| && IsNoted(attempts[i].finished, runs[i].recorded)
    && attempts[i].finished.value + RETRY_BACKOFF < runs[i + 1].sent
  }

  ghost predicate Spaced(attempts: seq<Task>, runs: seq<Timing>) {
    forall i :: 0 <= i < |runs| - 1 ==> IsSpacedAt(attempts, runs, i)
  }

  /** What holds of one operation that the scheduler supports. */
  ghost predicate TaskOk(cluster: string, status: OperationStatus, cc: CruiseControl, clock: int) {
    status.currentTask.Some? &&
    var task := status.currentTask.value;
    && (task.state == NoState ==> task.id == "" && task.finished.None? && status.retryCount == 0)
    && (task.state != NoState ==> task.id != "" && TaskRef(cluster, task.id) in cc)
    && (IsTerminalState(task.state) ==> !IsLive(cc[TaskRef(cluster, task.id)]))
    && (IsRunningState(task.state) ==> task.finished.None?)
    && (task.finished.Some? ==> task.finished.value <= clock)
  }

  ghost predicate HistoryOk(status: OperationStatus, attempts: seq<Task>) {
    && status.failedTasks == Last(attempts, FAILED_TASKS_MAX)
    && status.retryCount == |attempts|
    && forall t :: t in attempts ==> IsFailedAttempt(t)
  }

  ghost predicate TimesOk(status: OperationStatus, attempts: seq<Task>, runs: seq<Timing>, clock: int) {
    status.currentTask.Some? &&
    var task := status.currentTask.value;
    && Spaced(attempts, runs)
    && (task.state == NoState ==> runs == [])
    && (task.state != NoState && task.kind != StopExecution ==> |runs| == |attempts| + 1)
    && (runs != [] ==> runs[|runs| - 1].recorded <= clock)
    && (runs != [] && task.finished.Some? ==> IsNoted(task.finished, runs[|runs| - 1].recorded))
  }

  ghost predicate RecordOk(op: Operation, cc: CruiseControl, clock: int, attempts: seq<Task>, runs: seq<Timing>) {
    && op.spec.errorPolicy != NoPolicy
    && (op.IsValid() ==>
          && TaskOk(op.meta.cluster, op.status, cc, clock)
          && HistoryOk(op.status, attempts)
          && TimesOk(op.status, attempts, runs, clock))
  }

  /** A running operation that is not a stop request. */
  predicate Occupies(op: Operation) {
    op.IsValid() && op.IsCurrentTaskRunning() && op.CurrentTaskKind() != StopExecution
  }

  ghost predicate MutualExclusion(ops: Store) {
    forall a, b ::
      (a in ops && b in ops && Occupies(ops[a]) && Occupies(ops[b]) && ops[a].meta.cluster == ops[b].meta.cluster)
      ==> a == b
  }

  ghost predicate RecordsOk(w: World) {
    forall n :: n in w.ops ==>
      w.ops[n].meta.name == n && RecordOk(w.ops[n], w.cc, w.clock, Of(w.attempts, n), Of(w.runs, n))
  }

  ghost predicate Inv(w: World) {
    HasStates(w.cc) && RecordsOk(w) && MutualExclusion(w.ops)
  }

  // ---------------------------------------------------------------------------
  // One record

  /** Time and Cruise Control moving on break nothing. */
  lemma RecordOkLater(op: Operation, cc: CruiseControl, clock: int, cc': CruiseControl, clock': int,
                      attempts: seq<Task>, runs: seq<Timing>)
    requires RecordOk(op, cc, clock, attempts, runs)
    requires Advances(cc, cc') && clock <= clock'
    ensures RecordOk(op, cc', clock', attempts, runs)
  {
  }

  /** Polling an operation keeps its record sound and never makes it running. */
  lemma PolledKeeps(op: Operation, cluster: string, results: map<string, TaskResult>, cc: CruiseControl, clock: int,
                    now: int, attempts: seq<Task>, runs: seq<Timing>)
    requires RecordOk(op, cc, clock, attempts, runs)
    requires HasStates(cc) && (IsEligible(op, cluster) ==> ReportsTask(results, cc, cluster, op.CurrentTaskID()))
    requires clock <= now
    ensures RecordOk(Polled(op, cluster, results, now), cc, now, attempts, runs)
    ensures Occupies(Polled(op, cluster, results, now)) ==> Occupies(op)
    ensures Polled(op, cluster, results, now) == op.(status := Polled(op, cluster, results, now).status)
    ensures Polled(op, cluster, results, now).CurrentTaskKind() == op.CurrentTaskKind()
  {
    if IsEligible(op, cluster) && op.CurrentTaskID() != "" && !op.IsDone() {
      var ref := TaskRef(cluster, op.CurrentTaskID());
      assert ref in cc;
      assert cc[ref].Known? ==> op.CurrentTaskID() in results;
    }
  }

  /**
   After polling, a failed operation that waits for a retry has a finish time:
   also one whose retry failed at once, which leaves it without one.
   */
  lemma PolledRetryIsStamped(op: Operation, cluster: string, results: map<string, TaskResult>, cc: CruiseControl,
                             clock: int, now: int, attempts: seq<Task>, runs: seq<Timing>)
    requires RecordOk(op, cc, clock, attempts, runs)
    requires IsEligible(op, cluster)
    requires Polled(op, cluster, results, now).IsWaitingForRetryExecution()
    ensures Polled(op, cluster, results, now).CurrentTaskFinished().Some?
  {
  }

  /** A valid operation that is not done is in one of the queues. */
  lemma InSomeQueue(op: Operation, cc: CruiseControl, clock: int, attempts: seq<Task>, runs: seq<Timing>)
    requires RecordOk(op, cc, clock, attempts, runs)
    requires op.IsValid() && !op.IsDone()
    ensures Classify(op).Some?
    ensures op.IsCurrentTaskRunning() <==> Classify(op) == Some(ForStop) || Classify(op) == Some(InProgress)
  {
  }

  lemma LastPush(attempts: seq<Task>, task: Task)
    ensures PushFailedTask(Last(attempts, FAILED_TASKS_MAX), task) == Last(attempts + [task], FAILED_TASKS_MAX)
  {
  }

  /** The task is the last recorded execution, and run comes after its back-off. */
  ghost predicate EndsBefore(attempts: seq<Task>, runs: seq<Timing>, task: Task, run: Timing) {
    && |runs| == |attempts| + 1 && IsNoted(task.finished, runs[|runs| - 1].recorded)
    && task.finished.value + RETRY_BACKOFF < run.sent
  }

  /** One more failed attempt, and one more execution after its back-off. */
  lemma SpacedPush(attempts: seq<Task>, runs: seq<Timing>, task: Task, run: Timing)
    requires Spaced(attempts, runs)
    ensures Spaced(attempts + [task], runs)
    ensures EndsBefore(attempts, runs, task, run) ==> Spaced(attempts + [task], runs + [run])
  {
    forall i | 0 <= i < |runs| - 1 ensures IsSpacedAt(attempts + [task], runs, i) {
      assert IsSpacedAt(attempts, runs, i);
    }
    if EndsBefore(attempts, runs, task, run) {
      forall i | 0 <= i < |runs| ensures IsSpacedAt(attempts + [task], runs + [run], i) {
        if i < |runs| - 1 {
          assert IsSpacedAt(attempts, runs, i);
        }
      }
    }
  }

  /** An operation the scheduler may send: fresh, ready for a retry, or being finalized. */
  ghost predicate Sendable(target: Operation, now: int) {
    && target.IsValid()
    && (|| target.IsWaitingForFirstExecution()
        || target.IsReadyForRetryExecution(now)
        || (target.IsCurrentTaskRunning() && target.CurrentTaskKind() == StopExecution))
  }

  /** A recorded execution keeps the record sound, with the histories extended. */
  lemma ExecutedKeeps(target: Operation, res: TaskResult, cc: CruiseControl, sent: int, now: int,
                      attempts: seq<Task>, runs: seq<Timing>)
    requires RecordOk(target, cc, sent, attempts, runs) && Sendable(target, sent) && sent <= now
    requires IsAnswer(res, cc, target.meta.cluster)
    requires UpdateResult(target, Some(res), true, now).1
    ensures
      var task := target.status.currentTask.value;
      var cc' := cc[TaskRef(target.meta.cluster, res.taskId) := Known(res.state)];
      var attempts' := if task.state == CompletedWithError then attempts + [task] else attempts;
      var runs' := if task.kind != StopExecution then runs + [Timing(sent, now)] else runs;
      RecordOk(UpdateResult(target, Some(res), true, now).0, cc', now, attempts', runs')
  {
    var task := target.status.currentTask.value;
    LastPush(attempts, task);
    SpacedPush(attempts, runs, task, Timing(sent, now));
  }
}
