/**
 How a Cruise Control answer is written into an operation's status
 (updateResult), on values.
 */
module OperationResult {
  import opened Wrappers
  import opened OperationTypes

  function ResultOrMissing(op: Operation, res: Option<TaskResult>): TaskResult {
    if res.Some? then res.value
    else TaskResult(op.CurrentTaskID(), None, 0, "", None, CompletedWithError, Some(MISSING_RESULT_ERROR))
  }

  function PushFailedTask(history: seq<Task>, task: Task): seq<Task> {
    (if |history| >= FAILED_TASKS_MAX then history[1..] else history) + [task]
  }

  function Stamped(task: Task, state: TaskState, now: int): Task {
    if IsTerminalState(state) && task.finished.None? then task.(finished := Some(WholeSeconds(now))) else task
  }

  /** The failed attempt is moved to the history exactly when it is being replaced. */
  predicate MovesToHistory(task: Task, afterExecution: bool) {
    afterExecution && task.finished.Some? && task.state == CompletedWithError
  }

  function Filled(task: Task, res: TaskResult): Task
    requires task.started.Some? || res.startedAt.Some?
  {
    task.(started := if task.started.Some? then task.started else res.startedAt,
    id := res.taskId,
    summary := res.summary,
    errorMessage := if res.error.Some? then res.error.value else task.errorMessage,
    httpRequest := res.requestURL,
    httpResponseCode := Some(res.responseStatusCode))
  }

  /** updateResult: the new operation, and false when the start time does not parse. */
  function UpdateResult(op: Operation, answer: Option<TaskResult>, afterExecution: bool, now: int): (Operation, bool)
    requires op.status.currentTask.Some?
  {
    var res := ResultOrMissing(op, answer);
    var stamped := Stamped(op.status.currentTask.value, res.state, now);
    var moves := MovesToHistory(stamped, afterExecution);
    var task := if moves then stamped.Defaulted() else stamped;
    var status := op.status.(
    errorPolicy := op.spec.errorPolicy,
    failedTasks := if moves then PushFailedTask(op.status.failedTasks, stamped) else op.status.failedTasks,
    retryCount := if moves then op.status.retryCount + 1 else op.status.retryCount);
    if afterExecution && task.started.None? && res.startedAt.None? then
      (op.(status := status.(currentTask := Some(task))), false)
    else
      var filled := if afterExecution then Filled(task, res) else task;
      (op.(status := status.(currentTask := Some(filled.(state := res.state)))), true)
  }

  /** The Cruise Control answers by task id; a later answer for an id replaces an earlier one. */
  function ByTaskID(tasks: seq<TaskResult>): map<string, TaskResult> {
    if tasks == [] then map[]
    else ByTaskID(tasks[..|tasks| - 1])[tasks[|tasks| - 1].taskId := tasks[|tasks| - 1]]
  }

  function Lookup(results: map<string, TaskResult>, id: string): Option<TaskResult> {
    if id in results then Some(results[id]) else None
  }

  /** One operation after updateCurrentTasks has polled Cruise Control. */
  function Refreshed(op: Operation, results: map<string, TaskResult>, now: int): Operation {
    if op.CurrentTaskID() != "" && !op.IsDone() then
      UpdateResult(op, Lookup(results, op.CurrentTaskID()), false, now).0
    else op
  }

  function RefreshAll(ops: seq<Operation>, results: map<string, TaskResult>, now: int): seq<Operation> {
    seq(|ops|, i requires 0 <= i < |ops| => Refreshed(ops[i], results, now))
  }

  // ---------------------------------------------------------------------------
  // What is recorded

  /** Two tasks ask Cruise Control for the same thing. */
  predicate SameRequest(a: Task, b: Task) {
    a.kind == b.kind && a.parameters == b.parameters
  }

  /**
   Recording the answer to an execution: the answer replaces the attempt, and
   a failed attempt that it replaces becomes the newest of at most 50 in the
   history, as it was.
   */
  lemma ExecutionIsRecorded(op: Operation, res: TaskResult, now: int)
    requires op.status.currentTask.Some? && (op.CurrentTaskFinished().Some? || !IsTerminalState(op.CurrentTaskState()))
    requires |op.status.failedTasks| <= FAILED_TASKS_MAX
    ensures
      var (op', ok) := UpdateResult(op, Some(res), true, now);
      var task, history, history' := op.status.currentTask.value, op.status.failedTasks, op'.status.failedTasks;
      && op'.meta == op.meta && op'.spec == op.spec
      && op'.status.currentTask.Some? && SameRequest(op'.status.currentTask.value, task)
      && (ok ==> op'.CurrentTaskID() == res.taskId && op'.CurrentTaskState() == res.state)
      && (ok && IsRunningState(res.state) && op.CurrentTaskState() == CompletedWithError ==>
        op'.CurrentTaskFinished().None?)
      && op'.status.retryCount - op.status.retryCount == (if op.CurrentTaskState() == CompletedWithError then 1 else 0)
      && (if op.CurrentTaskState() == CompletedWithError
          then history' == (if |history| == FAILED_TASKS_MAX then history[1..] else history) + [task]
          else history' == history)
  {
  }

  /**
   What of the answer the record of an execution holds: everything it says, a
   start time only when none is known, and of an earlier error only what a task
   that has not failed carries along.  The answer is recorded unless no start time
   is known.
   */
  lemma AnswerIsRecorded(op: Operation, res: TaskResult, now: int)
    requires op.status.currentTask.Some? && (op.CurrentTaskFinished().Some? || !IsTerminalState(op.CurrentTaskState()))
    ensures
      var (op', ok) := UpdateResult(op, Some(res), true, now);
      var task, failed := op.status.currentTask.value, op.CurrentTaskState() == CompletedWithError;
      var started := if failed || task.started.None? then res.startedAt else task.started;
      && (ok <==> started.Some?) && op'.status.errorPolicy == op.spec.errorPolicy
      && (ok ==>
        op'.status.currentTask == Some(Task(
          res.taskId,
          started,
          if failed then None
          else if task.finished.None? && res.state in {Completed, CompletedWithError} then Some(WholeSeconds(now))
          else task.finished,
          task.kind,
          task.parameters,
          res.requestURL,
          Some(res.responseStatusCode),
          res.summary,
          res.state,
          if res.error.Some? then res.error.value else if failed then "" else task.errorMessage)))
  {
  }

  /** The answer that counts for an id is the last one listed. */
  lemma {:induction false} ByTaskIDSpec(tasks: seq<TaskResult>, id: string)
    ensures id in ByTaskID(tasks) <==> exists t :: t in tasks && t.taskId == id
    ensures id in ByTaskID(tasks) ==>
      exists i :: 0 <= i < |tasks| && tasks[i] == ByTaskID(tasks)[id] && tasks[i].taskId == id &&
        forall j :: i < j < |tasks| ==> tasks[j].taskId != id
  {
    if tasks != [] {
      var front, last := tasks[..|tasks| - 1], tasks[|tasks| - 1];
      assert tasks == front + [last];
      ByTaskIDSpec(front, id);
      if last.taskId == id {
        assert tasks[|tasks| - 1] == ByTaskID(tasks)[id];
      } else if id in ByTaskID(front) {
        var i :| 0 <= i < |front| && front[i] == ByTaskID(front)[id] && front[i].taskId == id &&
                 forall j :: i < j < |front| ==> front[j].taskId != id;
        assert tasks[i] == front[i];
      }
    }
  }

  /** Polling moves the state on, notes when the task stopped, once, and touches nothing else. */
  lemma PollingMovesState(op: Operation, answer: Option<TaskResult>, now: int)
    requires op.status.currentTask.Some?
    ensures
      var (op', ok) := UpdateResult(op, answer, false, now);
      var task := op.status.currentTask.value;
      var state := if answer.Some? then answer.value.state else CompletedWithError;
      && ok && op'.CurrentTaskState() == state
      && (task.finished.Some? ==> op'.CurrentTaskFinished() == task.finished)
      && (task.finished.None? ==>
            op'.CurrentTaskFinished() == if IsTerminalState(state) then Some(WholeSeconds(now)) else None)
      && var task' := task.(state := state, finished := op'.CurrentTaskFinished());
      op' == op.(status := op.status.(errorPolicy := op.spec.errorPolicy, currentTask := Some(task')))
  {
  }
}
