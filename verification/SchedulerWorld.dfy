/**
 The scheduler as a state machine: the stored operations, Cruise Control, a clock,
 and three history variables: the failed attempts that were retried, the times of
 the recorded executions, and everything that was sent.
 */
module SchedulerWorld {
  import opened Wrappers
  import opened OperationTypes
  import opened OperationResult
  import opened ReconcileStep

  /** A user task is known per Kafka cluster: each cluster has its own Cruise Control. */
  datatype TaskRef = TaskRef(cluster: string, id: string)

  /** What Cruise Control says about a task it has issued. */
  datatype TaskFate = Known(state: TaskState) | Forgotten

  type CruiseControl = map<TaskRef, TaskFate>

  predicate IsLive(fate: TaskFate) {
    fate.Known? && IsRunningState(fate.state)
  }

  /** A recorded execution was sent at or after `sent` and recorded at `recorded`. */
  datatype Timing = Timing(sent: int, recorded: int)

  /**
   A request that was sent for an operation and got the task `id`; whether it was
   sent over a task that the record showed as running, and whether the answer was
   recorded.
   */
  datatype Sending = Sending(id: string, overrides: bool, recorded: bool)

  datatype World = World(
    ops: Store,
    cc: CruiseControl,
    clock: int,
    attempts: map<string, seq<Task>>,
    runs: map<string, seq<Timing>>,
    sent: map<string, seq<Sending>>)

  datatype Event =
    | Create(op: Operation)
    | SetPaused(name: string, paused: bool)
    | SetErrorPolicy(name: string, policy: ErrorPolicy)
    | Delete(name: string)
    | Tick(now: int)
    | Advance(cc: CruiseControl)
    | Reconciled(request: string, env: Environment)

  predicate IsFresh(op: Operation) {
    op.status.currentTask.Some? &&
    var task := op.status.currentTask.value;
    task.state == NoState && task.id == "" && task.finished.None? &&
    op.status.retryCount == 0 && op.status.failedTasks == []
  }

  /** Cruise Control only moves tasks on: what stopped running stays stopped. */
  ghost predicate Advances(cc: CruiseControl, cc': CruiseControl) {
    forall ref :: ref in cc ==> ref in cc' && (IsLive(cc'[ref]) ==> IsLive(cc[ref]))
  }

  ghost predicate HasStates(cc: CruiseControl) {
    forall ref :: ref in cc && cc[ref].Known? ==> cc[ref].state != NoState
  }

  ghost predicate ReportsTask(results: map<string, TaskResult>, cc: CruiseControl, cluster: string, id: string) {
    TaskRef(cluster, id) in cc ==>
      match cc[TaskRef(cluster, id)]
      case Forgotten => id !in results
      case Known(s) => id in results && results[id].state == s
  }

  /** The polled answers are what Cruise Control knows about the tasks that were asked for. */
  ghost predicate Reports(results: map<string, TaskResult>, cc: CruiseControl, cluster: string, ops: Store) {
    forall n :: n in ops && IsEligible(ops[n], cluster) ==> ReportsTask(results, cc, cluster, ops[n].CurrentTaskID())
  }

  /** An answer to a request carries an id and a state, and revives no stopped task. */
  ghost predicate IsAnswer(res: TaskResult, cc: CruiseControl, cluster: string) {
    res.taskId != "" && res.state != NoState &&
    (TaskRef(cluster, res.taskId) in cc && IsRunningState(res.state) ==> IsLive(cc[TaskRef(cluster, res.taskId)]))
  }

  ghost predicate Allowed(w: World, e: Event) {
    match e
    case Create(op) =>
      op.meta.name !in w.ops && op.spec.errorPolicy != NoPolicy && !op.meta.deleting && (op.IsValid() ==> IsFresh(op))
    case SetPaused(name, _) => name in w.ops
    case SetErrorPolicy(name, policy) => name in w.ops && policy != NoPolicy
    case Delete(name) => name in w.ops
    case Tick(now) => w.clock <= now
    case Advance(cc) => Advances(w.cc, cc) && HasStates(cc)
    case Reconciled(request, env) =>
      && IsListing(env.listing, w.ops)
      && w.clock <= env.refreshTime <= env.selectTime <= env.recordTime
      && (request in w.ops ==>
            var cluster := w.ops[request].meta.cluster;
            && (env.userTasks.Some? ==> Reports(ByTaskID(env.userTasks.value), w.cc, cluster, w.ops))
            && (env.execution.Some? ==> IsAnswer(env.execution.value, w.cc, cluster)))
  }

  function Of<T>(m: map<string, seq<T>>, name: string): seq<T> {
    if name in m then m[name] else []
  }

  function SendingOf(x: Execution): Sending {
    Sending(x.result.taskId, IsRunningState(x.target.CurrentTaskState()), x.recorded)
  }

  function AfterExecution(w: World, store: Store, x: Execution, env: Environment): World
  {
    var name, task := x.target.meta.name, x.target.status.currentTask;
    World(
      store,
      w.cc[TaskRef(x.target.meta.cluster, x.result.taskId) := Known(x.result.state)],
      env.recordTime,
      if x.recorded && task.Some? && task.value.state == CompletedWithError
      then w.attempts[name := Of(w.attempts, name) + [task.value]] else w.attempts,
      if x.recorded && x.target.CurrentTaskKind() != StopExecution
      then w.runs[name := Of(w.runs, name) + [Timing(env.selectTime, env.recordTime)]] else w.runs,
      w.sent[name := Of(w.sent, name) + [SendingOf(x)]])
  }

  function Conclude(w: World, out: Outcome, env: Environment): World {
    if out.execution.None? then w.(ops := out.store, clock := env.recordTime)
    else AfterExecution(w, out.store, out.execution.value, env)
  }

  function Apply(w: World, e: Event): World
    requires e.Reconciled? ==> forall n :: n in e.env.listing ==> n in w.ops
  {
    match e
    case Create(op) =>
      w.(ops := w.ops[op.meta.name := op],
      attempts := w.attempts[op.meta.name := []],
      runs := w.runs[op.meta.name := []],
      sent := w.sent[op.meta.name := []])
    case SetPaused(name, paused) =>
      if name in w.ops then w.(ops := w.ops[name := w.ops[name].(meta := w.ops[name].meta.(paused := paused))]) else w
    case SetErrorPolicy(name, policy) =>
      if name in w.ops then w.(ops := w.ops[name := w.ops[name].(spec := OperationSpec(policy))]) else w
    case Delete(name) =>
      if name !in w.ops then w
      else if w.ops[name].meta.finalizer then
        w.(ops := w.ops[name := w.ops[name].(meta := w.ops[name].meta.(deleting := true))])
      else w.(ops := w.ops - {name})
    case Tick(now) => w.(clock := now)
    case Advance(cc) => w.(cc := cc)
    case Reconciled(request, env) =>
      Conclude(w, Reconcile(w.ops, request, env), env)
  }

  ghost predicate IsRun(w: World, events: seq<Event>)
    decreases |events|
  {
    events == [] || (Allowed(w, events[0]) && IsRun(Apply(w, events[0]), events[1..]))
  }

  ghost function Play(w: World, events: seq<Event>): World
    requires IsRun(w, events)
    decreases |events|
  {
    if events == [] then w else Play(Apply(w, events[0]), events[1..])
  }

  ghost predicate IsInitial(w: World) {
    w.ops == map[] && w.cc == map[]
  }
}
