/** Every step keeps the invariant, so every run does. */
module SchedulerSafety {
  import opened Wrappers
  import opened ApiServer
  import opened OperationTypes
  import opened OperationResult
  import opened OperationQueues
  import opened ReconcileStep
  import opened RefreshStage
  import opened SchedulerWorld
  import opened SchedulerInvariant

  /** The stored operations after a step that sends nothing: records sound, and none newly running. */
  ghost predicate Settles(store: Store, store': Store) {
    forall n :: n in store' ==>
      n in store && store'[n].meta.cluster == store[n].meta.cluster && (Occupies(store'[n]) ==> Occupies(store[n]))
  }

  lemma SettlesKeepsExclusion(store: Store, store': Store)
    requires MutualExclusion(store) && Settles(store, store')
    ensures MutualExclusion(store')
  {
  }

  lemma InvLater(w: World, cc: CruiseControl, clock: int)
    requires Inv(w) && Advances(w.cc, cc) && HasStates(cc) && w.clock <= clock
    ensures Inv(w.(cc := cc, clock := clock))
  {
    forall n | n in w.ops ensures RecordOk(w.ops[n], cc, clock, Of(w.attempts, n), Of(w.runs, n)) {
      RecordOkLater(w.ops[n], w.cc, w.clock, cc, clock, Of(w.attempts, n), Of(w.runs, n));
    }
  }

  lemma InvIgnoresSent(w: World, sent: map<string, seq<Sending>>)
    requires Inv(w)
    ensures Inv(w.(sent := sent))
  {
  }

  lemma TimePasses(w: World, clock: int)
    requires Inv(w) && w.clock <= clock
    ensures Inv(w.(clock := clock))
  {
    InvLater(w, w.cc, clock);
  }

  /** Changing labels, finalizers or deletion marks of one operation, or dropping it. */
  lemma MetaKeeps(w: World, name: string, meta: ObjectMeta)
    requires Inv(w) && name in w.ops
    requires meta.name == w.ops[name].meta.name && meta.cluster == w.ops[name].meta.cluster
    ensures Inv(w.(ops := w.ops[name := w.ops[name].(meta := meta)]))
    ensures Inv(w.(ops := w.ops - {name}))
  {
    SettlesKeepsExclusion(w.ops, w.ops[name := w.ops[name].(meta := meta)]);
    SettlesKeepsExclusion(w.ops, w.ops - {name});
  }

  lemma FinalizerKeeps(w: World, name: string)
    requires Inv(w) && name in w.ops
    ensures Inv(w.(ops := WithoutFinalizer(w.ops, name)))
    ensures Inv(w.(ops := WithFinalizer(w.ops, name)))
  {
    MetaKeeps(w, name, w.ops[name].meta.(finalizer := false));
    MetaKeeps(w, name, w.ops[name].meta.(finalizer := true));
  }

  /** Polling Cruise Control and writing back, however many of the writes succeed. */
  lemma PollingKeeps(w: World, cluster: string, results: map<string, TaskResult>, now: int, written: Store)
    requires Inv(w) && Reports(results, w.cc, cluster, w.ops) && w.clock <= now
    requires written.Keys == w.ops.Keys
    requires forall n :: n in w.ops ==>
      written[n] == w.ops[n] || written[n] == Polled(w.ops[n], cluster, results, now)
    ensures Inv(w.(ops := written, clock := now))
  {
    forall n | n in written
      ensures written[n].meta.name == n
      ensures RecordOk(written[n], w.cc, now, Of(w.attempts, n), Of(w.runs, n))
      ensures written[n].meta.cluster == w.ops[n].meta.cluster
      ensures Occupies(written[n]) ==> Occupies(w.ops[n])
    {
      PolledKeeps(w.ops[n], cluster, results, w.cc, w.clock, now, Of(w.attempts, n), Of(w.runs, n));
      RecordOkLater(w.ops[n], w.cc, w.clock, w.cc, now, Of(w.attempts, n), Of(w.runs, n));
    }
    SettlesKeepsExclusion(w.ops, written);
  }

  /** No operation of the cluster other than `name` occupies Cruise Control. */
  ghost predicate Idle(store: Store, cluster: string) {
    forall n :: n in store && store[n].meta.cluster == cluster ==> !Occupies(store[n])
  }

  /** The target is the stored operation, up to its kind having become a stop. */
  ghost predicate IsStored(target: Operation, ops: Store) {
    target.meta.name in ops &&
    var op := ops[target.meta.name];
    && target.meta == op.meta && target.spec == op.spec && op.IsValid() && target.IsValid()
    && target.CurrentTaskKind() in {op.CurrentTaskKind(), StopExecution}
    && target.status == op.status.(currentTask := Some(op.status.currentTask.value.(kind := target.CurrentTaskKind())))
  }

  /** The state after a recorded answer. */
  function Recorded(w: World, target: Operation, res: TaskResult, env: Environment): World
    requires target.status.currentTask.Some?
  {
    AfterExecution(w, WriteStatus(w.ops, UpdateResult(target, Some(res), true, env.recordTime).0),
                   Execution(target, res, true), env)
  }

  lemma RecordedRecords(w: World, target: Operation, res: TaskResult, env: Environment)
    requires RecordsOk(w) && w.clock <= env.selectTime <= env.recordTime
    requires IsStored(target, w.ops) && Sendable(target, env.selectTime) && IsAnswer(res, w.cc, target.meta.cluster)
    requires UpdateResult(target, Some(res), true, env.recordTime).1
    ensures RecordsOk(Recorded(w, target, res, env))
  {
    hide UpdateResult, Sendable;
    var name := target.meta.name;
    var w' := Recorded(w, target, res, env);
    assert Advances(w.cc, w'.cc);
    forall n | n in w'.ops
      ensures w'.ops[n].meta.name == n
      ensures RecordOk(w'.ops[n], w'.cc, w'.clock, Of(w'.attempts, n), Of(w'.runs, n))
    {
      if n == name {
        RecordedTarget(w, target, res, env);
      } else {
        RecordedOther(w, target, res, env, n);
      }
    }
  }

  lemma RecordedTarget(w: World, target: Operation, res: TaskResult, env: Environment)
    requires RecordsOk(w) && w.clock <= env.selectTime <= env.recordTime
    requires IsStored(target, w.ops) && Sendable(target, env.selectTime) && IsAnswer(res, w.cc, target.meta.cluster)
    requires UpdateResult(target, Some(res), true, env.recordTime).1
    ensures
      var w', n := Recorded(w, target, res, env), target.meta.name;
      n in w'.ops && w'.ops[n].meta.name == n &&
        RecordOk(w'.ops[n], w'.cc, w'.clock, Of(w'.attempts, n), Of(w'.runs, n))
  {
    var name := target.meta.name;
    RecordOkLater(w.ops[name], w.cc, w.clock, w.cc, env.selectTime, Of(w.attempts, name), Of(w.runs, name));
    assert RecordOk(target, w.cc, env.selectTime, Of(w.attempts, name), Of(w.runs, name));
    ExecutedKeeps(target, res, w.cc, env.selectTime, env.recordTime, Of(w.attempts, name), Of(w.runs, name));
    hide RecordOk, Sendable, IsAnswer;
    var updated := UpdateResult(target, Some(res), true, env.recordTime).0;
    assert updated == target.(status := updated.status);
    assert Recorded(w, target, res, env).ops[name] == updated;
  }

  lemma RecordedOther(w: World, target: Operation, res: TaskResult, env: Environment, n: string)
    requires RecordsOk(w) && w.clock <= env.selectTime <= env.recordTime
    requires IsStored(target, w.ops) && IsAnswer(res, w.cc, target.meta.cluster)
    requires n in w.ops && n != target.meta.name
    ensures
      var w' := Recorded(w, target, res, env);
      n in w'.ops && w'.ops[n].meta.name == n &&
        RecordOk(w'.ops[n], w'.cc, w'.clock, Of(w'.attempts, n), Of(w'.runs, n))
  {
    assert UpdateResult(target, Some(res), true, env.recordTime).0.meta == target.meta;
    hide UpdateResult, RecordOk;
    var w' := Recorded(w, target, res, env);
    RecordOkLater(w.ops[n], w.cc, w.clock, w'.cc, env.recordTime, Of(w.attempts, n), Of(w.runs, n));
    assert w'.ops[n] == w.ops[n];
  }

  lemma RecordedExclusion(w: World, target: Operation, res: TaskResult, env: Environment)
    requires MutualExclusion(w.ops) && IsStored(target, w.ops)
    requires target.CurrentTaskKind() == StopExecution || Idle(w.ops, target.meta.cluster)
    ensures MutualExclusion(Recorded(w, target, res, env).ops)
  {
    var name := target.meta.name;
    var updated := UpdateResult(target, Some(res), true, env.recordTime).0;
    assert updated.CurrentTaskKind() == target.CurrentTaskKind();
    hide UpdateResult;
    var ops := Recorded(w, target, res, env).ops;
    assert ops == w.ops[name := w.ops[name].(status := updated.status)];
    assert Occupies(ops[name]) ==> target.CurrentTaskKind() != StopExecution;
  }

  /** Sending one operation, when it is a stop request or nothing else occupies the cluster. */
  lemma ExecuteKeeps(w: World, target: Operation, env: Environment)
    requires Inv(w) && w.clock <= env.selectTime <= env.recordTime
    requires IsStored(target, w.ops) && Sendable(target, env.selectTime)
    requires env.execution.Some? ==> IsAnswer(env.execution.value, w.cc, target.meta.cluster)
    requires target.CurrentTaskKind() == StopExecution || Idle(w.ops, target.meta.cluster)
    ensures Inv(Conclude(w, Execute(w.ops, target, env), env))
  {
    hide RecordsOk, MutualExclusion, UpdateResult, Sendable, Idle;
    TimePasses(w, env.recordTime);
    if env.execution.Some? {
      var res := env.execution.value;
      if UpdateResult(target, Some(res), true, env.recordTime).1 && env.resultWrite.TakesEffect() {
        RecordedRecords(w, target, res, env);
        RecordedExclusion(w, target, res, env);
      } else {
        var cc := w.cc[TaskRef(target.meta.cluster, res.taskId) := Known(res.state)];
        InvLater(w, cc, env.recordTime);
        InvIgnoresSent(w.(cc := cc, clock := env.recordTime), Conclude(w, Execute(w.ops, target, env), env).sent);
      }
    }
  }

  /** When nothing is queued as finalizing or in progress, nothing occupies the cluster. */
  lemma QueuesShowIdle(w: World, cluster: string, ops: seq<Operation>)
    requires Inv(w)
    requires forall n :: n in w.ops && w.ops[n].meta.cluster == cluster && w.ops[n].IsValid() && !w.ops[n].IsDone() ==>
      w.ops[n] in ops
    requires IsEmpty(ops, ForStop) && QueueOf(ops, InProgress) == []
    ensures Idle(w.ops, cluster)
  {
    HeadSpec(ops, InProgress);
    forall n | n in w.ops && w.ops[n].meta.cluster == cluster ensures !Occupies(w.ops[n]) {
      if Occupies(w.ops[n]) {
        InSomeQueue(w.ops[n], w.cc, w.clock, Of(w.attempts, n), Of(w.runs, n));
      }
    }
  }

  /** The polled operations mirror the stored ones of the cluster that are not done. */
  ghost predicate Mirrors(ops: seq<Operation>, store: Store, cluster: string) {
    && (forall x :: x in ops ==>
      x.meta.name in store && store[x.meta.name] == x && x.IsValid() && x.meta.cluster == cluster)
    && (forall n :: n in store && IsEligible(store[n], cluster) ==> store[n] in ops)
  }

  /** A chosen operation that is not a stop leaves the guard only when the cluster is idle. */
  lemma UnblockedMeansIdle(w: World, cluster: string, ops: seq<Operation>, target: Operation,
                           status: CruiseControlStatus)
    requires Inv(w) && Mirrors(ops, w.ops, cluster) && IsEmpty(ops, ForStop)
    requires !Blocked(ops, target, status)
    ensures target.CurrentTaskKind() == StopExecution || Idle(w.ops, cluster)
  {
    hide RecordOk;
    if target.CurrentTaskKind() != StopExecution {
      QueuesShowIdle(w, cluster, ops);
    }
  }

  lemma RunKeepsInv(w: World, cluster: string, ops: seq<Operation>, target: Operation, status: CruiseControlStatus,
                    env: Environment)
    requires Inv(w) && w.clock <= env.selectTime <= env.recordTime && Mirrors(ops, w.ops, cluster)
    requires IsSound(ops, env.selectTime, Run(target))
    requires env.execution.Some? ==> IsAnswer(env.execution.value, w.cc, cluster)
    ensures target.status.currentTask.Some? && Inv(Conclude(w, Guarded(w.ops, ops, target, status, env), env))
  {
    assert IsStored(target, w.ops) && Sendable(target, env.selectTime) && target.meta.cluster == cluster;
    hide Inv, Mirrors, IsStored, Sendable, IsSound, IsAnswer;
    TimePasses(w, env.recordTime);
    if !Blocked(ops, target, status) {
      assert target.CurrentTaskKind() == StopExecution || Idle(w.ops, cluster) by {
        if IsEmpty(ops, ForStop) {
          UnblockedMeansIdle(w, cluster, ops, target, status);
        } else {
          StopWhenFinalizing(ops, env.selectTime, target);
        }
      }
      ExecuteKeeps(w, target, env);
    }
  }

  lemma StopWhenFinalizing(ops: seq<Operation>, now: int, target: Operation)
    requires IsSound(ops, now, Run(target)) && !IsEmpty(ops, ForStop)
    ensures target.CurrentTaskKind() == StopExecution
  {
  }

  lemma PauseThenRunKeepsInv(w: World, cluster: string, ops: seq<Operation>, p: Operation, target: Operation,
                             status: CruiseControlStatus, env: Environment)
    requires Inv(w) && w.clock <= env.selectTime <= env.recordTime && Mirrors(ops, w.ops, cluster)
    requires IsSound(ops, env.selectTime, PauseThenRun(p, target))
    requires env.execution.Some? ==> IsAnswer(env.execution.value, w.cc, cluster)
    ensures p.meta.name in w.ops && target.status.currentTask.Some?
    ensures Inv(w.(ops := WithPause(w.ops, p.meta.name, env.pauseWrite), clock := env.recordTime))
    ensures env.pauseWrite == Handled ==>
      Inv(Conclude(w, Guarded(WithPause(w.ops, p.meta.name, env.pauseWrite), ops, target, status, env), env))
  {
    hide Inv, Mirrors, IsStored, Sendable, IsSound, IsAnswer, IsEmpty, Idle, Execute;
    PauseFacts(w.ops, cluster, ops, p, target, env.selectTime);
    var name := p.meta.name;
    var w1 := w.(ops := w.ops[name := Paused(w.ops[name])]);
    MetaKeeps(w, name, w.ops[name].meta.(paused := true));
    TimePasses(w, env.recordTime);
    TimePasses(w1, env.recordTime);
    if !Blocked(ops, target, status) {
      UnblockedMeansIdle(w, cluster, ops, target, status);
      ExecuteKeeps(w1, target, env);
    }
  }

  /** Pausing the failed removal of disks does not touch the rebalance that goes first, and occupies nothing. */
  lemma PauseFacts(store: Store, cluster: string, ops: seq<Operation>, p: Operation, target: Operation, now: int)
    requires Mirrors(ops, store, cluster) && IsSound(ops, now, PauseThenRun(p, target))
    ensures p.meta.name in store && target.status.currentTask.Some?
    ensures
      var store' := store[p.meta.name := Paused(store[p.meta.name])];
      && IsStored(target, store') && (Idle(store, cluster) ==> Idle(store', cluster))
    ensures Sendable(target, now) && target.meta.cluster == cluster && IsEmpty(ops, ForStop)
  {
    assert p.meta.name in store && store[p.meta.name] == p && p != target;
    assert store[target.meta.name] == target;
    PausedStaysIdle(store, p.meta.name, cluster);
  }

  lemma PausedStaysIdle(store: Store, name: string, cluster: string)
    requires name in store
    ensures Idle(store, cluster) ==> Idle(store[name := Paused(store[name])], cluster)
  {
  }

  lemma DispatchKeeps(w: World, cluster: string, ops: seq<Operation>, status: CruiseControlStatus, env: Environment)
    requires Inv(w) && w.clock <= env.selectTime <= env.recordTime && Mirrors(ops, w.ops, cluster)
    requires env.execution.Some? ==> IsAnswer(env.execution.value, w.cc, cluster)
    ensures forall x :: x in ops ==> x.status.currentTask.Some?
    ensures Inv(Conclude(w, Dispatch(w.ops, ops, status, env), env))
  {
    assert forall x :: x in ops ==> x.status.currentTask.Some?;
    hide Inv, Mirrors, IsSound, IsAnswer, Guarded;
    ChoiceIsSound(ops, env.selectTime);
    TimePasses(w, env.recordTime);
    match Choose(ops, env.selectTime)
    case Nothing =>
    case Run(target) => RunKeepsInv(w, cluster, ops, target, status, env);
    case PauseThenRun(p, target) => PauseThenRunKeepsInv(w, cluster, ops, p, target, status, env);
  }

  lemma PolledMirrors(w: World, listing: seq<string>, cluster: string, results: map<string, TaskResult>, now: int,
                      budget: Writes)
    requires Inv(w) && IsListing(listing, w.ops) && Reports(results, w.cc, cluster, w.ops) && w.clock <= now
    ensures
      var before := Eligible(w.ops, listing, cluster);
      var after := RefreshAll(before, results, now);
      var (written, ok) := WriteChanged(w.ops, before, after, budget);
      Inv(w.(ops := written, clock := now)) && written.Keys == w.ops.Keys && (ok ==> Mirrors(after, written, cluster))
  {
    var before := Eligible(w.ops, listing, cluster);
    var after := RefreshAll(before, results, now);
    var (written, ok) := WriteChanged(w.ops, before, after, budget);
    RefreshStageSpec(w.ops, listing, cluster, results, now, budget);
    PollingKeeps(w, cluster, results, now, written);
    if ok {
      forall n | n in w.ops
        ensures written[n].meta == w.ops[n].meta && written[n].IsValid() == w.ops[n].IsValid()
        ensures IsEligible(written[n], cluster) ==> IsEligible(w.ops[n], cluster)
      {
        PolledKeeps(w.ops[n], cluster, results, w.cc, w.clock, now, Of(w.attempts, n), Of(w.runs, n));
      }
    }
  }

  lemma ScheduleKeeps(w: World, request: string, status: CruiseControlStatus, env: Environment)
    requires Inv(w) && request in w.ops && IsListing(env.listing, w.ops)
    requires w.clock <= env.refreshTime <= env.selectTime <= env.recordTime
    requires env.userTasks.Some? ==> Reports(ByTaskID(env.userTasks.value), w.cc, w.ops[request].meta.cluster, w.ops)
    requires env.execution.Some? ==> IsAnswer(env.execution.value, w.cc, w.ops[request].meta.cluster)
    ensures Inv(Conclude(w, Schedule(w.ops, request, status, env), env))
  {
    hide Inv, Mirrors, Dispatch, WriteChanged, Reports, IsAnswer, WithoutFinalizer;
    var cluster := w.ops[request].meta.cluster;
    TimePasses(w, env.recordTime);
    if env.userTasks.Some? {
      var results := ByTaskID(env.userTasks.value);
      var before := Eligible(w.ops, env.listing, cluster);
      var after := RefreshAll(before, results, env.refreshTime);
      var (written, ok) := WriteChanged(w.ops, before, after, env.refreshWrites);
      PolledMirrors(w, env.listing, cluster, results, env.refreshTime, env.refreshWrites);
      var w1 := w.(ops := written, clock := env.refreshTime);
      TimePasses(w1, env.recordTime);
      if ok {
        if written[request].IsFinalizerNeeded() && !written[request].IsCurrentTaskRunning() {
          FinalizerKeeps(w1.(clock := env.recordTime), request);
        } else {
          DispatchKeeps(w1, cluster, after, status, env);
          ConcludeFromPolled(w, written, env.refreshTime, Dispatch(written, after, status, env), env);
        }
      }
    }
  }

  lemma ConcludeFromPolled(w: World, ops: Store, clock: int, out: Outcome, env: Environment)
    ensures Conclude(w.(ops := ops, clock := clock), out, env) == Conclude(w, out, env)
  {
  }

  lemma AdmissionKeeps(w: World, request: string, listing: seq<string>)
    requires Inv(w) && request in w.ops && IsListing(listing, w.ops)
    ensures Inv(w.(ops := WithFinalizer(w.ops, request)))
    ensures IsListing(listing, WithFinalizer(w.ops, request))
    ensures WithFinalizer(w.ops, request).Keys == w.ops.Keys
    ensures WithFinalizer(w.ops, request)[request].meta.cluster == w.ops[request].meta.cluster
    ensures forall results, cluster ::
      Reports(results, w.cc, cluster, w.ops) ==> Reports(results, w.cc, cluster, WithFinalizer(w.ops, request))
  {
    FinalizerKeeps(w, request);
  }

  lemma AdmitKeeps(w: World, request: string, env: Environment)
    requires Inv(w) && request in w.ops && Allowed(w, Reconciled(request, env))
    ensures Inv(Conclude(w, Admit(w.ops, request, env), env))
  {
    hide Inv, WithFinalizer, Schedule, Reports, IsAnswer;
    AdmissionKeeps(w, request, env.listing);
    var adds := !w.ops[request].meta.deleting && !w.ops[request].meta.finalizer;
    var admitted := w.(ops := if adds && env.metaWrite.TakesEffect() then WithFinalizer(w.ops, request) else w.ops);
    TimePasses(w, env.recordTime);
    TimePasses(admitted, env.recordTime);
    if env.status.Some? {
      ScheduleKeeps(admitted, request, env.status.value, env);
      ConcludeFromPolled(w, admitted.ops, w.clock, Schedule(admitted.ops, request, env.status.value, env), env);
    }
  }

  lemma ReconcileKeeps(w: World, request: string, env: Environment)
    requires Inv(w) && Allowed(w, Reconciled(request, env))
    ensures Inv(Apply(w, Reconciled(request, env)))
  {
    hide Inv, WithoutFinalizer, Admit;
    TimePasses(w, env.recordTime);
    if request in w.ops {
      FinalizerKeeps(w.(clock := env.recordTime), request);
      AdmitKeeps(w, request, env);
    }
  }

  lemma CreatedIsOk(w: World, op: Operation)
    requires Allowed(w, Create(op))
    ensures RecordOk(op, w.cc, w.clock, [], []) && !Occupies(op)
  {
  }

  lemma CreateKeeps(w: World, op: Operation)
    requires Inv(w) && Allowed(w, Create(op))
    ensures Inv(Apply(w, Create(op)))
  {
    hide RecordOk;
    var w' := Apply(w, Create(op));
    CreatedIsOk(w, op);
    forall n | n in w'.ops
      ensures w'.ops[n].meta.name == n && RecordOk(w'.ops[n], w'.cc, w'.clock, Of(w'.attempts, n), Of(w'.runs, n))
    {
      if n != op.meta.name {
        assert RecordOk(w.ops[n], w.cc, w.clock, Of(w.attempts, n), Of(w.runs, n));
      }
    }
  }

  lemma PolicyKeeps(w: World, name: string, policy: ErrorPolicy)
    requires Inv(w) && name in w.ops && policy != NoPolicy
    ensures Inv(w.(ops := w.ops[name := w.ops[name].(spec := OperationSpec(policy))]))
  {
    SettlesKeepsExclusion(w.ops, w.ops[name := w.ops[name].(spec := OperationSpec(policy))]);
  }

  /** Every allowed event keeps the invariant. */
  lemma StepKeeps(w: World, e: Event)
    requires Inv(w) && Allowed(w, e)
    ensures Inv(Apply(w, e))
  {
    hide Inv, Reconcile;
    match e
    case Create(op) => CreateKeeps(w, op);
    case SetPaused(name, paused) => MetaKeeps(w, name, w.ops[name].meta.(paused := paused));
    case SetErrorPolicy(name, policy) => PolicyKeeps(w, name, policy);
    case Delete(name) => MetaKeeps(w, name, w.ops[name].meta.(deleting := true));
    case Tick(now) => TimePasses(w, now);
    case Advance(cc) => InvLater(w, cc, w.clock);
    case Reconciled(request, env) => ReconcileKeeps(w, request, env);
  }

  lemma {:induction false} RunKeeps(w: World, events: seq<Event>)
    requires Inv(w) && IsRun(w, events)
    ensures Inv(Play(w, events))
    decreases |events|
  {
    if events != [] {
      StepKeeps(w, events[0]);
      RunKeeps(Apply(w, events[0]), events[1..]);
    }
  }

  lemma InitialInv(w: World)
    requires IsInitial(w)
    ensures Inv(w)
  {
  }

  // ---------------------------------------------------------------------------
  // What the invariant means

  /** In every reachable state at most one operation of a cluster other than a stop is running. */
  lemma AtMostOneRunning(w: World, events: seq<Event>, a: string, b: string)
    requires IsInitial(w) && IsRun(w, events)
    requires var ops := Play(w, events).ops;
      a in ops && b in ops && Occupies(ops[a]) && Occupies(ops[b]) && ops[a].meta.cluster == ops[b].meta.cluster
    ensures a == b
  {
    InitialInv(w);
    RunKeeps(w, events);
  }

  /** Over every run the failed-task list is the last 50 retried failures, and the counter counts them all. */
  lemma FailedTasksAreTheLastFifty(w: World, events: seq<Event>, name: string)
    requires IsInitial(w) && IsRun(w, events)
    requires name in Play(w, events).ops && Play(w, events).ops[name].IsValid()
    ensures
      var w' := Play(w, events);
      var attempts := Of(w'.attempts, name);
      && w'.ops[name].status.failedTasks == Last(attempts, 50)
      && w'.ops[name].status.retryCount == |attempts|
      && forall t :: t in attempts ==> t.state == CompletedWithError && t.finished.Some?
  {
    InitialInv(w);
    RunKeeps(w, events);
  }

  /**
   Over every run, of two consecutive recorded executions of an operation the
   first failed, and the second was sent more than 30 s after its end as noted:
   more than 30 s after its recording too if that is not later than the noted
   end, and more than 29 s in any case.
   */
  lemma RetriesAreSpaced(w: World, events: seq<Event>, name: string, i: nat)
    requires IsInitial(w) && IsRun(w, events)
    requires name in Play(w, events).ops && Play(w, events).ops[name].IsValid()
    requires i + 1 < |Of(Play(w, events).runs, name)|
    ensures i < |Of(Play(w, events).attempts, name)|
    ensures
      var failed, runs := Of(Play(w, events).attempts, name)[i], Of(Play(w, events).runs, name);
      && failed.state == CompletedWithError && IsNoted(failed.finished, runs[i].recorded)
      && failed.finished.value + 30 * SECOND < runs[i + 1].sent
      && (runs[i].recorded <= failed.finished.value ==> runs[i].recorded + 30 * SECOND < runs[i + 1].sent)
      && runs[i].recorded + 29 * SECOND < runs[i + 1].sent
  {
    InitialInv(w);
    RunKeeps(w, events);
    var attempts, runs := Of(Play(w, events).attempts, name), Of(Play(w, events).runs, name);
    assert Spaced(attempts, runs) && IsSpacedAt(attempts, runs, i);
    assert attempts[i] in attempts;
  }

  /** In every reachable state a supported operation that is not done is in exactly one queue. */
  lemma EveryPendingOperationIsQueued(w: World, events: seq<Event>, name: string)
    requires IsInitial(w) && IsRun(w, events)
    requires var ops := Play(w, events).ops; name in ops && ops[name].IsValid() && !ops[name].IsDone()
    ensures Classify(Play(w, events).ops[name]).Some?
  {
    InitialInv(w);
    RunKeeps(w, events);
    var w' := Play(w, events);
    InSomeQueue(w'.ops[name], w'.cc, w'.clock, Of(w'.attempts, name), Of(w'.runs, name));
  }

  /** In every reachable state, polling leaves no operation waiting for a retry without a finish time. */
  lemma RetryQueueIsStamped(w: World, events: seq<Event>, name: string, results: map<string, TaskResult>, now: int)
    requires IsInitial(w) && IsRun(w, events)
    requires name in Play(w, events).ops
    requires
      var op := Play(w, events).ops[name];
      IsEligible(op, op.meta.cluster) && Polled(op, op.meta.cluster, results, now).IsWaitingForRetryExecution()
    ensures
      var op := Play(w, events).ops[name];
      Polled(op, op.meta.cluster, results, now).CurrentTaskFinished().Some?
  {
    InitialInv(w);
    RunKeeps(w, events);
    var w' := Play(w, events);
    PolledRetryIsStamped(w'.ops[name], w'.ops[name].meta.cluster, results, w'.cc, w'.clock, now,
                         Of(w'.attempts, name), Of(w'.runs, name));
  }
}
