/** Runs of the scheduler that show what it does not promise. */
module SchedulerInstances {
  import opened Wrappers
  import opened ApiServer
  import opened OperationTypes
  import opened OperationResult
  import opened OperationQueues
  import opened ReconcileStep
  import opened RefreshStage
  import opened SchedulerWorld
  import opened SchedulerSending
  import opened SchedulerExclusion

  function FreshTask(kind: Kind): Task {
    Task("", None, None, kind, map[], "", None, None, NoState, "")
  }

  function FreshOperation(name: string, kind: Kind, finalizer: bool): Operation {
    Operation(ObjectMeta(name, "kafka", false, 0, false, finalizer), OperationSpec(Retry),
              OperationStatus(Some(FreshTask(kind)), NoPolicy, 0, []))
  }

  /** An answer of Cruise Control. */
  function Answer(id: string, state: TaskState): TaskResult {
    TaskResult(id, Some(0), 200, "", None, state, None)
  }

  const IDLE := CruiseControlStatus(true, false)

  /** A reconcile at the given time in which only the write of the result may go wrong. */
  function Calm(listing: seq<string>, tasks: seq<TaskResult>, answer: TaskResult, resultWrite: Delivery,
                now: int): Environment
  {
    Environment(listing, ClusterFound, Handled, true, Some(IDLE), Some(tasks), Writes(1, false), Handled,
                Some(answer), resultWrite, now, now, now)
  }

  // ---------------------------------------------------------------------------
  // Reconciles of a single operation

  lemma AddBrokerSecondAlone(op: Operation, now: int)
    requires Classify(op) == Some(First) && op.CurrentTaskKind() == AddBroker && op.status.currentTask.Some?
    ensures Choose([op], now) == Run(op)
  {
    hide Choose, Classify;
    assert op in [op];
    assert Has([op], First, AddBroker) && IsEmpty([op], ForStop);
    AddBrokerSecond([op], now);
  }

  lemma RetryAlone(op: Operation, now: int)
    requires Classify(op) == Some(ForRetry) && op.IsReadyForRetryExecution(now) && op.status.currentTask.Some?
    ensures Choose([op], now) == Run(op)
  {
    hide Choose, Classify, QueueOf;
    assert op in [op];
    assert IsEmpty([op], ForStop) && !Has([op], First, AddBroker) && !Has([op], First, Rebalance);
    RetryThenFresh([op], now);
    HeadSpec([op], ForRetry);
    QueueSpec([op], ForRetry);
    assert QueueOf([op], ForRetry) != [];
    assert QueueOf([op], ForRetry)[0] in QueueOf([op], ForRetry);
    assert IsHead([op], ForRetry, op);
  }

  /** A reconcile of the only stored operation polls it, and then drops it or dispatches. */
  lemma ReconcileSingle(op: Operation, tasks: seq<TaskResult>, answer: TaskResult, resultWrite: Delivery,
                        now: int)
    requires op.meta.name == "a" && op.meta.cluster == "kafka" && op.IsValid() && !op.IsDone() && op.meta.finalizer
    ensures
      var env, p := Calm(["a"], tasks, answer, resultWrite, now), Polled(op, "kafka", ByTaskID(tasks), now);
      && p.status.currentTask.Some?
      && Reconcile(map["a" := op], "a", env) ==
         if p.IsFinalizerNeeded() && !p.IsCurrentTaskRunning() then Outcome(WithoutFinalizer(map["a" := p], "a"), None)
         else Dispatch(map["a" := p], [p], IDLE, env)
  {
    hide UpdateResult, Eligible, RefreshAll, WriteChanged, Dispatch, Polled, Refreshed, WithoutFinalizer, ByTaskID;
    var store, results, env := map["a" := op], ByTaskID(tasks), Calm(["a"], tasks, answer, resultWrite, now);
    var p := Polled(op, "kafka", results, now);
    OneEligible(store, op);
    OnePolled(op, results, now);
    OneWritten(op, p);
    assert Reconcile(store, "a", env) == Schedule(store, "a", IDLE, env);
  }

  lemma OnePolled(op: Operation, results: map<string, TaskResult>, now: int)
    requires op.meta.cluster == "kafka" && op.IsValid() && !op.IsDone()
    ensures
      var p := Polled(op, "kafka", results, now);
      RefreshAll([op], results, now) == [p] && p == op.(status := p.status) && p.status.currentTask.Some?
  {
    RefreshedFrame(op, results, now);
  }

  lemma OneEligible(store: Store, op: Operation)
    requires "a" in store && store["a"] == op && IsEligible(op, "kafka")
    ensures Eligible(store, ["a"], "kafka") == [op]
  {
    assert ["a"][..0] == [];
  }

  lemma OneWritten(op: Operation, p: Operation)
    requires op.meta.name == "a" && p == op.(status := p.status)
    ensures WriteChanged(map["a" := op], [op], [p], Writes(1, false)) == (map["a" := p], true)
  {
    assert [op][1..] == [] && [p][1..] == [];
    assert op.status == p.status ==> op == p;
    assert WriteStatus(map["a" := op], p) == map["a" := p];
  }

  lemma SingleFirst(p: Operation, env: Environment)
    requires Classify(p) == Some(First) && p.CurrentTaskKind() == AddBroker
    requires p.status.currentTask.Some?
    ensures Dispatch(map["a" := p], [p], IDLE, env) == Execute(map["a" := p], p, env)
  {
    hide Choose, Classify, Execute, QueueOf;
    AddBrokerSecondAlone(p, env.selectTime);
    HeadSpec([p], InProgress);
  }

  lemma SingleRetry(p: Operation, env: Environment)
    requires Classify(p) == Some(ForRetry) && p.IsReadyForRetryExecution(env.selectTime)
    requires p.status.currentTask.Some?
    ensures Dispatch(map["a" := p], [p], IDLE, env) == Execute(map["a" := p], p, env)
  {
    hide Choose, Classify, Execute, QueueOf;
    RetryAlone(p, env.selectTime);
    HeadSpec([p], InProgress);
  }

  lemma SingleStop(p: Operation, env: Environment)
    requires Classify(p) == Some(ForStop) && p.status.currentTask.Some?
    ensures Dispatch(map["a" := p], [p], IDLE, env) == Execute(map["a" := p], AsStop(p), env)
  {
    hide Choose, Classify, Execute, QueueOf;
    assert p in [p];
    FinalizingFirst([p], env.selectTime);
  }

  // ---------------------------------------------------------------------------
  // A record that goes while a task of its own still runs

  const EMPTY := World(map[], map[], 0, map[], map[], map[])
  const TASK := TaskRef("kafka", "id")

  /** A new add_broker, stored with its finalizer. */
  const NEW := FreshOperation("a", AddBroker, true)

  function Deleting(op: Operation): Operation {
    op.(meta := op.meta.(deleting := true))
  }

  /** One operation, what Cruise Control knows, the time, and what was sent for the operation. */
  predicate IsState(w: World, op: Operation, cc: CruiseControl, clock: int, sent: seq<Sending>) {
    w.ops == map["a" := op] && w.cc == cc && w.clock == clock && Of(w.sent, "a") == sent
  }

  lemma OneIsAllowed(w: World, op: Operation, tasks: seq<TaskResult>, answer: TaskResult, resultWrite: Delivery,
                     now: int)
    requires w.ops == map["a" := op] && w.clock <= now && op.meta.name == "a" && op.meta.cluster == "kafka"
    requires ReportsTask(ByTaskID(tasks), w.cc, "kafka", op.CurrentTaskID()) && IsAnswer(answer, w.cc, "kafka")
    ensures Allowed(w, Reconciled("a", Calm(["a"], tasks, answer, resultWrite, now)))
  {
    hide ReportsTask, ByTaskID;
    assert IsListing(["a"], w.ops);
  }

  /** A run goes on with one more event. */
  lemma {:induction false} RunAppend(w: World, events: seq<Event>, e: Event)
    requires IsRun(w, events) && Allowed(Play(w, events), e)
    ensures IsRun(w, events + [e]) && Play(w, events + [e]) == Apply(Play(w, events), e)
    decreases |events|
  {
    hide Apply, Reports, IsAnswer;
    var all := events + [e];
    if events == [] {
      assert all[1..] == [];
      assert IsRun(Apply(w, e), all[1..]);
    } else {
      RunAppend(Apply(w, events[0]), events[1..], e);
      assert all[1..] == events[1..] + [e] && all[0] == events[0];
    }
  }

  /** The environment of a reconcile that sends the operation, given what is polled and answered. */
  lemma Reconciling(w: World, op: Operation, tasks: seq<TaskResult>, answer: TaskResult, resultWrite: Delivery,
                    now: int)
    requires w.ops == map["a" := op] && w.clock <= now && op.meta.name == "a" && op.meta.cluster == "kafka"
    requires op.IsValid() && !op.IsDone() && op.meta.finalizer
    requires ReportsTask(ByTaskID(tasks), w.cc, "kafka", op.CurrentTaskID()) && IsAnswer(answer, w.cc, "kafka")
    ensures
      var env, p := Calm(["a"], tasks, answer, resultWrite, now), Polled(op, "kafka", ByTaskID(tasks), now);
      && Allowed(w, Reconciled("a", env)) && p.status.currentTask.Some?
      && Apply(w, Reconciled("a", env)) ==
         Conclude(w,
                  if p.IsFinalizerNeeded() && !p.IsCurrentTaskRunning() then
                    Outcome(WithoutFinalizer(map["a" := p], "a"), None)
                  else Dispatch(map["a" := p], [p], IDLE, env),
                  env)
  {
    hide ReportsTask, IsAnswer, Polled, Reconcile, Dispatch, WithoutFinalizer, ByTaskID;
    OneIsAllowed(w, op, tasks, answer, resultWrite, now);
    ReconcileSingle(op, tasks, answer, resultWrite, now);
  }

  /** The operation after its answer has been recorded. */
  function Recorded(op: Operation, answer: TaskResult, now: int): Operation
    requires op.status.currentTask.Some?
  {
    UpdateResult(op, Some(answer), true, now).0
  }

  /** What sending an operation and recording its answer, or not, leaves. */
  lemma Sent(w: World, p: Operation, target: Operation, answer: TaskResult, env: Environment)
    requires target.status.currentTask.Some? && target.meta == p.meta && p.meta.name == "a"
    requires p.meta.cluster == "kafka" && target.spec == p.spec && answer.startedAt.Some?
    requires env.execution == Some(answer)
    ensures
      var recorded := env.resultWrite.TakesEffect();
      var w' := Conclude(w, Execute(map["a" := p], target, env), env);
      && IsState(w',
                 if recorded then Recorded(target, answer, env.recordTime) else p,
                 w.cc[TaskRef("kafka", answer.taskId) := Known(answer.state)],
                 env.recordTime,
                 Of(w.sent, "a") + [Sending(answer.taskId, IsRunningState(target.CurrentTaskState()), recorded)])
      && Of(w'.runs, "a") ==
         Of(w.runs, "a") +
         if recorded && target.CurrentTaskKind() != StopExecution then [Timing(env.selectTime, env.recordTime)] else []
  {
    var (updated, parsed) := UpdateResult(target, Some(answer), true, env.recordTime);
    assert parsed && updated.meta == p.meta && updated.spec == p.spec;
    hide UpdateResult;
    assert WriteStatus(map["a" := p], updated) == map["a" := updated];
  }

  /** Creating an operation with its finalizer, and sending it at the given time. */
  lemma CreateAndSend(answer: TaskResult, resultWrite: Delivery, now: int) returns (events: seq<Event>)
    requires answer.taskId == "id" && answer.state != NoState && answer.startedAt.Some? && 0 <= now
    ensures IsRun(EMPTY, events)
    ensures IsState(Play(EMPTY, events), if resultWrite.TakesEffect() then Recorded(NEW, answer, now) else NEW,
                    map[TASK := Known(answer.state)], now, [Sending("id", false, resultWrite.TakesEffect())])
    ensures Of(Play(EMPTY, events).runs, "a") == if resultWrite.TakesEffect() then [Timing(now, now)] else []
  {
    var env := Calm(["a"], [], answer, resultWrite, now);
    var w1 := Apply(EMPTY, Create(NEW));
    assert w1.ops == map["a" := NEW] && Of(w1.sent, "a") == [] && Of(w1.runs, "a") == [] && w1.cc == map[];
    assert Allowed(EMPTY, Create(NEW));
    NewIsFirst(now);
    Reconciling(w1, NEW, [], answer, resultWrite, now);
    SingleFirst(NEW, env);
    Sent(w1, NEW, NEW, answer, env);
    hide Apply, Allowed, Recorded, Dispatch, Execute, Conclude;
    RunAppend(EMPTY, [], Create(NEW));
    assert [] + [Create(NEW)] == [Create(NEW)];
    RunAppend(EMPTY, [Create(NEW)], Reconciled("a", env));
    events := [Create(NEW)] + [Reconciled("a", env)];
    assert w1.cc[TASK := Known(answer.state)] == map[TASK := Known(answer.state)];
    assert [] + [Sending("id", false, resultWrite.TakesEffect())] == [Sending("id", false, resultWrite.TakesEffect())];
  }

  lemma ThenDelete(events: seq<Event>, op: Operation, cc: CruiseControl, sent: seq<Sending>)
    returns (events': seq<Event>)
    requires IsRun(EMPTY, events) && IsState(Play(EMPTY, events), op, cc, 0, sent) && op.meta.finalizer
    ensures IsRun(EMPTY, events') && IsState(Play(EMPTY, events'), Deleting(op), cc, 0, sent)
  {
    hide IsRun, Play;
    RunAppend(EMPTY, events, Delete("a"));
    events' := events + [Delete("a")];
  }

  /** A record that goes in the event e, although a task that was sent for it runs. */
  ghost predicate GoesWhileRunning(events: seq<Event>, e: Event) {
    && IsRun(EMPTY, events) && Allowed(Play(EMPTY, events), e)
    && var w, w' := Play(EMPTY, events), Apply(Play(EMPTY, events), e);
    && "a" in w.ops && w.ops["a"].IsValid() && w.ops["a"].meta.finalizer && "a" !in w'.ops
    && TASK in w'.cc && IsLive(w'.cc[TASK])
  }

  /** The reconcile that takes the record away, once polling shows that the task it names does not run. */
  lemma ThenDrop(events: seq<Event>, op: Operation, cc: CruiseControl, sent: seq<Sending>, tasks: seq<TaskResult>)
    returns (e: Event)
    requires IsRun(EMPTY, events) && IsState(Play(EMPTY, events), Deleting(op), cc, 0, sent)
    requires op.meta.name == "a" && op.meta.cluster == "kafka" && op.IsValid() && !op.IsDone() && op.meta.finalizer
    requires ReportsTask(ByTaskID(tasks), cc, "kafka", op.CurrentTaskID()) && TaskRef("kafka", "other") !in cc
    requires !Polled(Deleting(op), "kafka", ByTaskID(tasks), 0).IsCurrentTaskRunning()
    requires TASK in cc && IsLive(cc[TASK])
    ensures GoesWhileRunning(events, e)
  {
    var w, answer := Play(EMPTY, events), Answer("other", Active);
    PolledSameId(Deleting(op), "kafka", ByTaskID(tasks), 0);
    hide IsRun, Play, Polled, ReportsTask, ByTaskID;
    Reconciling(w, Deleting(op), tasks, answer, Handled, 0);
    e := Reconciled("a", Calm(["a"], tasks, answer, Handled, 0));
  }

  /**
   The answer to the only request is dropped, so the record names no task: it is
   deleted and goes while the task runs.
   */
  lemma GoesAfterDroppedAnswer() returns (events: seq<Event>, e: Event)
    ensures GoesWhileRunning(events, e) && Of(Play(EMPTY, events).sent, "a") == [Sending("id", false, false)]
  {
    events := CreateAndSend(Answer("id", Active), Refused, 0);
    events := ThenDelete(events, NEW, map[TASK := Known(Active)], [Sending("id", false, false)]);
    assert Polled(Deleting(NEW), "kafka", ByTaskID([]), 0) == Deleting(NEW);
    hide IsRun, Play, GoesWhileRunning;
    e := ThenDrop(events, NEW, map[TASK := Known(Active)], [Sending("id", false, false)], []);
  }

  // ---------------------------------------------------------------------------
  // A stop takes the place of a running task

  const STOP := TaskRef("kafka", "stop")

  /** The running operation, as polled, and the stop that is sent for it. */
  lemma ThenStop(events: seq<Event>, op: Operation) returns (events': seq<Event>, stopped: Operation)
    requires IsRun(EMPTY, events)
    requires IsState(Play(EMPTY, events), Deleting(op), map[TASK := Known(Active)], 0, [Sending("id", false, true)])
    requires op == Recorded(NEW, Answer("id", Active), 0)
    ensures IsRun(EMPTY, events')
    ensures IsState(Play(EMPTY, events'), Deleting(stopped), map[TASK := Known(Active), STOP := Known(Active)], 0,
                    [Sending("id", false, true), Sending("stop", true, true)])
    ensures stopped.meta == NEW.meta && stopped.IsValid() && stopped.CurrentTaskID() == "stop"
    ensures stopped.CurrentTaskState() == Active && stopped.spec == NEW.spec
  {
    hide IsRun, Play, Polled, ByTaskID, Recorded, Dispatch, Execute, Conclude, Classify, Apply, Allowed;
    var w, tasks, answer := Play(EMPTY, events), [Answer("id", Active)], Answer("stop", Active);
    var env := Calm(["a"], tasks, answer, Handled, 0);
    OneResult(Answer("id", Active));
    var p := Polled(Deleting(op), "kafka", ByTaskID(tasks), 0);
    StopsRunning(p, op);
    Reconciling(w, Deleting(op), tasks, answer, Handled, 0);
    SingleStop(p, env);
    Sent(w, p, AsStop(p), answer, env);
    RunAppend(EMPTY, events, Reconciled("a", env));
    events' := events + [Reconciled("a", env)];
    var after := Recorded(AsStop(p), answer, 0);
    stopped := after.(meta := after.meta.(deleting := false));
    StopIsRecorded(p, answer);
    assert w.cc[STOP := Known(Active)] == map[TASK := Known(Active), STOP := Known(Active)];
  }

  lemma OneResult(r: TaskResult)
    ensures ByTaskID([r]) == map[r.taskId := r]
  {
    assert [r][..0] == [];
  }

  lemma StopsRunning(p: Operation, op: Operation)
    requires op == Recorded(NEW, Answer("id", Active), 0)
    requires p == Polled(Deleting(op), "kafka", map["id" := Answer("id", Active)], 0)
    ensures Deleting(op).IsValid() && !Deleting(op).IsDone() && op.CurrentTaskID() == "id"
    ensures p.meta == Deleting(op).meta == Deleting(NEW).meta && p.spec == NEW.spec && p.status.currentTask.Some?
    ensures Classify(p) == Some(ForStop) && p.CurrentTaskState() == Active && p.IsCurrentTaskRunning()
  {
  }

  lemma StopIsRecorded(p: Operation, answer: TaskResult)
    requires p.status.currentTask.Some? && p.CurrentTaskState() == Active && answer == Answer("stop", Active)
    ensures
      var after := Recorded(AsStop(p), answer, 0);
      && after.meta == p.meta && after.spec == p.spec && after.IsValid()
      && after.CurrentTaskID() == "stop" && after.CurrentTaskState() == Active
  {
  }

  lemma ThenAdvance(events: seq<Event>, op: Operation, cc: CruiseControl, cc': CruiseControl, sent: seq<Sending>)
    returns (events': seq<Event>)
    requires IsRun(EMPTY, events) && IsState(Play(EMPTY, events), op, cc, 0, sent)
    requires Advances(cc, cc') && HasStates(cc')
    ensures IsRun(EMPTY, events') && IsState(Play(EMPTY, events'), op, cc', 0, sent)
  {
    hide IsRun, Play, HasStates, Advances;
    RunAppend(EMPTY, events, Advance(cc'));
    events' := events + [Advance(cc')];
  }

  /**
   A running operation is deleted, so a stop is sent for it and its id replaces
   that of the task: the record goes when the stop has ended, and the task runs.
   */
  lemma GoesAfterStop() returns (events: seq<Event>, e: Event)
    ensures GoesWhileRunning(events, e)
    ensures Of(Play(EMPTY, events).sent, "a") == [Sending("id", false, true), Sending("stop", true, true)]
  {
    hide IsRun, Play, GoesWhileRunning, Recorded, Polled, ByTaskID;
    var op := Recorded(NEW, Answer("id", Active), 0);
    var sent := [Sending("id", false, true), Sending("stop", true, true)];
    var running := map[TASK := Known(Active), STOP := Known(Active)];
    var ended := map[TASK := Known(Active), STOP := Known(Completed)];
    RecordedMeta(NEW, Answer("id", Active));
    var stopped;
    events := CreateAndSend(Answer("id", Active), Handled, 0);
    events := ThenDelete(events, op, map[TASK := Known(Active)], [Sending("id", false, true)]);
    events, stopped := ThenStop(events, op);
    events := ThenAdvance(events, Deleting(stopped), running, ended, sent);
    StopHasEnded(stopped);
    e := ThenDrop(events, stopped, ended, sent, [Answer("stop", Completed)]);
  }

  lemma RecordedMeta(op: Operation, answer: TaskResult)
    requires op.status.currentTask.Some?
    ensures Recorded(op, answer, 0).meta == op.meta
  {
  }

  lemma StopHasEnded(op: Operation)
    requires op.IsValid() && op.CurrentTaskID() == "stop"
    requires op.CurrentTaskState() == Active && op.meta.cluster == "kafka"
    requires op.spec == OperationSpec(Retry)
    ensures ByTaskID([Answer("stop", Completed)]) == map["stop" := Answer("stop", Completed)]
    ensures !Polled(Deleting(op), "kafka", ByTaskID([Answer("stop", Completed)]), 0).IsCurrentTaskRunning()
  {
    OneResult(Answer("stop", Completed));
  }

  // ---------------------------------------------------------------------------
  // A retry less than 30 s after the first execution

  const FAILED := Answer("id", CompletedWithError)

  /** A first execution that fails and is recorded at 10.9 s is sent again at 40.05 s. */
  lemma RetryBelowThirtySeconds() returns (events: seq<Event>)
    ensures IsRun(EMPTY, events)
    ensures
      var runs := Of(Play(EMPTY, events).runs, "a");
      && runs == [Timing(10_900_000_000, 10_900_000_000), Timing(40_050_000_000, 40_050_000_000)]
      && runs[1].sent < runs[0].recorded + 30 * SECOND
  {
    hide IsRun, Play, Recorded, Apply, Allowed;
    events := CreateAndSend(FAILED, Handled, 10_900_000_000);
    var e := ThenRetry(Play(EMPTY, events), Recorded(NEW, FAILED, 10_900_000_000));
    RunAppend(EMPTY, events, e);
    events := events + [e];
  }

  lemma ThenRetry(w: World, failed: Operation) returns (e: Event)
    requires failed == Recorded(NEW, FAILED, 10_900_000_000)
    requires w.ops == map["a" := failed] && w.cc == map[TASK := Known(CompletedWithError)]
    requires w.clock == 10_900_000_000
    ensures Allowed(w, e)
    ensures Of(Apply(w, e).runs, "a") == Of(w.runs, "a") + [Timing(40_050_000_000, 40_050_000_000)]
  {
    var answer := Answer("again", Active);
    var env := Calm(["a"], [FAILED], answer, Handled, 40_050_000_000);
    OneResult(FAILED);
    FailedStaysFailed(failed, 40_050_000_000);
    hide Recorded, ByTaskID, Polled, Classify, Dispatch, Execute, Conclude, Apply, Allowed;
    Reconciling(w, failed, [FAILED], answer, Handled, 40_050_000_000);
    SingleRetry(failed, env);
    Sent(w, failed, failed, answer, env);
    e := Reconciled("a", env);
  }

  /** The failed task is stamped with 10 s, and polling it again changes nothing. */
  lemma FailedStaysFailed(failed: Operation, now: int)
    requires failed == Recorded(NEW, FAILED, 10_900_000_000)
    requires now == 40_050_000_000
    ensures failed.meta == NEW.meta && failed.IsValid() && !failed.IsDone() && failed.CurrentTaskID() == "id"
    ensures Polled(failed, "kafka", map["id" := FAILED], now) == failed
    ensures Classify(failed) == Some(ForRetry) && failed.IsReadyForRetryExecution(now)
    ensures failed.CurrentTaskKind() == AddBroker && !failed.IsFinalizerNeeded()
  {
    assert failed.CurrentTaskFinished() == Some(10 * SECOND);
  }

  // ---------------------------------------------------------------------------
  // Two tasks of one operation at the same time

  const AGAIN := TaskRef("kafka", "again")

  /** The event sends a request under a true status, and then both tasks are live. */
  ghost predicate SendsBeside(w: World, e: Event) {
    && Allowed(w, e) && Apply(w, e).cc == map[TASK := Known(Active), AGAIN := Known(Active)]
    && SendsTo(w, e, "kafka") && TellsTruly(w, e)
  }

  /**
   The answer to the only request is dropped and the task waits to be executed,
   so the status truly says that nothing executes: the same request is sent again
   and both tasks are live.
   */
  lemma OverlapsAfterDroppedAnswer() returns (events: seq<Event>, e: Event)
    ensures IsRun(EMPTY, events) && SendsBeside(Play(EMPTY, events), e)
  {
    hide IsRun, Play, SendsBeside;
    events := CreateAndSend(Answer("id", Active), Refused, 0);
    e := ThenResend(Play(EMPTY, events), [Sending("id", false, false)]);
  }

  lemma ThenResend(w: World, sent: seq<Sending>) returns (e: Event)
    requires IsState(w, NEW, map[TASK := Known(Active)], 0, sent)
    ensures SendsBeside(w, e)
  {
    var again := Answer("again", Active);
    var env := Calm(["a"], [], again, Refused, 0);
    NewIsFirst(0);
    hide Recorded, ByTaskID, Polled, Classify, Dispatch, Execute, Conclude, Allowed, SendsTo, Reconcile;
    Reconciling(w, NEW, [], again, Refused, 0);
    SingleFirst(NEW, env);
    Sent(w, NEW, NEW, again, env);
    ResentAs(w, env, again);
    e := Reconciled("a", env);
  }

  lemma NewIsFirst(now: int)
    ensures Polled(NEW, "kafka", ByTaskID([]), now) == NEW && Classify(NEW) == Some(First)
  {
  }

  lemma ResentAs(w: World, env: Environment, again: TaskResult)
    requires w.ops == map["a" := NEW] && env == Calm(["a"], [], again, Refused, 0)
    requires Allowed(w, Reconciled("a", env))
    ensures SendsTo(w, Reconciled("a", env), "kafka")
  {
    NewIsFirst(0);
    hide Allowed, ByTaskID, Polled, Classify, Dispatch, Reconcile, UpdateResult;
    ReconcileSingle(NEW, [], again, Refused, 0);
    SingleFirst(NEW, env);
  }

  // ---------------------------------------------------------------------------
  // An operation that runs without its finalizer

  /** Reconciling a rebalance sends a new add_broker that has not got its finalizer yet. */
  lemma SentWithoutFinalizer()
    ensures
      var a, b := FreshOperation("a", Rebalance, true), FreshOperation("b", AddBroker, false);
      var answer := Answer("id", Active);
      var env := Calm(["a", "b"], [], answer, Handled, 0);
      var out := Reconcile(map["a" := a, "b" := b], "a", env);
      && out.execution == Some(Execution(b, answer, true))
      && "b" in out.store && out.store["b"].IsCurrentTaskRunning() && !out.store["b"].meta.finalizer
  {
    hide Choose, Eligible, RefreshAll, WriteChanged, Classify, Reconcile, Dispatch;
    var a, b := FreshOperation("a", Rebalance, true), FreshOperation("b", AddBroker, false);
    var answer := Answer("id", Active);
    var env := Calm(["a", "b"], [], answer, Handled, 0);
    var store := map["a" := a, "b" := b];
    TwoEligible(store, a, b);
    NothingRefreshed(a, b);
    NothingChanged(store, [a, b], env.refreshWrites);
    ReconcileDispatches(store, "a", env, [a, b]);
    AddBrokerIsSent(a, b, IDLE, env, store);
  }

  /** A reconcile in which polling changes nothing comes down to dispatching. */
  lemma ReconcileDispatches(store: Store, request: string, env: Environment, ops: seq<Operation>)
    requires request in store && (forall n :: n in env.listing ==> n in store)
    requires store[request].IsValid() && store[request].meta.cluster != ""
    requires store[request].meta.finalizer && !store[request].meta.deleting
    requires env.cluster == ClusterFound && env.scaler && env.status.Some?
    requires env.status.value.ready && env.userTasks.Some?
    requires Eligible(store, env.listing, store[request].meta.cluster) == ops
    requires RefreshAll(ops, ByTaskID(env.userTasks.value), env.refreshTime) == ops
    requires WriteChanged(store, ops, ops, env.refreshWrites) == (store, true)
    ensures forall x :: x in ops ==> x.status.currentTask.Some?
    ensures Reconcile(store, request, env) == Dispatch(store, ops, env.status.value, env)
  {
    EligibleHaveTasks(store, env.listing, store[request].meta.cluster);
    hide Eligible, RefreshAll, WriteChanged, Dispatch;
  }

  lemma NothingRefreshed(a: Operation, b: Operation)
    requires a.CurrentTaskID() == "" && b.CurrentTaskID() == ""
    ensures RefreshAll([a, b], ByTaskID([]), 0) == [a, b]
  {
  }

  lemma AddBrokerIsSent(a: Operation, b: Operation, status: CruiseControlStatus, env: Environment, store: Store)
    requires a == FreshOperation("a", Rebalance, true) && b == FreshOperation("b", AddBroker, false)
    requires !status.inExecution
    ensures forall x :: x in [a, b] ==> x.status.currentTask.Some?
    ensures Dispatch(store, [a, b], status, env) == Execute(store, b, env)
  {
    hide Execute, Choose, QueueOf;
    var ops := [a, b];
    assert b in ops && Classify(b) == Some(First) && Classify(a) == Some(First);
    assert Has(ops, First, AddBroker);
    assert IsEmpty(ops, InProgress) && IsEmpty(ops, ForStop);
    AddBrokerSecond(ops, env.selectTime);
    HeadSpec(ops, InProgress);
    assert Choose(ops, env.selectTime).op in ops;
  }

  lemma TwoEligible(store: Store, a: Operation, b: Operation)
    requires "a" in store && "b" in store && store["a"] == a && store["b"] == b
    requires IsEligible(a, "kafka") && IsEligible(b, "kafka")
    ensures Eligible(store, ["a", "b"], "kafka") == [a, b]
  {
    assert ["a", "b"][..1] == ["a"] && ["a"][..0] == [];
    assert Eligible(store, ["a"], "kafka") == [a];
  }

  lemma {:induction false} NothingChanged(store: Store, ops: seq<Operation>, budget: Writes)
    ensures WriteChanged(store, ops, ops, budget) == (store, true)
    decreases |ops|
  {
    if ops != [] {
      NothingChanged(store, ops[1..], budget);
    }
  }
}
