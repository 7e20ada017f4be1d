/**
 What reconciles send: which operation a request is sent for, what becomes of the
 ids in the records, and when Cruise Control is idle.
 */
module SchedulerSending {
  import opened Wrappers
  import opened ApiServer
  import opened OperationTypes
  import opened OperationResult
  import opened OperationQueues
  import opened ReconcileStep
  import opened RefreshStage
  import opened SchedulerWorld
  import opened SchedulerInvariant
  import opened SchedulerSafety

  // ---------------------------------------------------------------------------
  // One reconcile

  /** The task that the record of an operation names has stopped, or it names none. */
  ghost predicate HasStopped(op: Operation, cc: CruiseControl) {
    var ref := TaskRef(op.meta.cluster, op.CurrentTaskID());
    op.CurrentTaskID() == "" || (ref in cc && !IsLive(cc[ref]))
  }

  /** The id that the record of an operation names after a reconcile. */
  function NextId(store: Store, out: Outcome, name: string): string
    requires name in store
  {
    if out.execution.Some? && out.execution.value.recorded && out.execution.value.target.meta.name == name
    then out.execution.value.result.taskId
    else store[name].CurrentTaskID()
  }

  /** The records that a reconcile of a cluster leaves, compared with those before it. */
  ghost predicate LeavesRecords(store: Store, out: Outcome, cluster: string) {
    forall n :: n in out.store ==>
      && n in store && out.store[n].meta.cluster == store[n].meta.cluster
      && out.store[n].CurrentTaskID() == NextId(store, out, n)
      && (store[n].meta.cluster != cluster ==> out.store[n] == store[n])
  }

  /** A stop for an operation that is being deleted while its task runs. */
  predicate IsStopOfRunning(target: Operation) {
    target.CurrentTaskKind() == StopExecution && IsRunningState(target.CurrentTaskState()) && target.meta.deleting
  }

  /**
   A request is sent for a stored operation of the cluster, as a stop over its
   running task or after its task has stopped.
   */
  ghost predicate SendsSoundly(store: Store, out: Outcome, cc: CruiseControl, cluster: string) {
    out.execution.Some? ==>
      var target := out.execution.value.target;
      && target.meta.name in store && target.meta.cluster == store[target.meta.name].meta.cluster == cluster
      && target.CurrentTaskID() == store[target.meta.name].CurrentTaskID()
      && (IsStopOfRunning(target) || HasStopped(target, cc))
  }

  /** store' has operations of store only, with the same clusters and ids, and those of other clusters unchanged. */
  ghost predicate SameIds(store: Store, store': Store, cluster: string) {
    forall n :: n in store' ==>
      && n in store && store'[n].meta.cluster == store[n].meta.cluster
      && store'[n].CurrentTaskID() == store[n].CurrentTaskID()
      && (store[n].meta.cluster != cluster ==> store'[n] == store[n])
  }

  lemma FromSameIds(store: Store, store': Store, out: Outcome, cc: CruiseControl, cluster: string)
    requires SameIds(store, store', cluster) && LeavesRecords(store', out, cluster)
    requires SendsSoundly(store', out, cc, cluster)
    ensures LeavesRecords(store, out, cluster) && SendsSoundly(store, out, cc, cluster)
  {
    hide HasStopped;
  }

  lemma NothingSent(store: Store, store': Store, cc: CruiseControl, cluster: string)
    requires SameIds(store, store', cluster)
    ensures LeavesRecords(store, Outcome(store', None), cluster)
    ensures SendsSoundly(store, Outcome(store', None), cc, cluster)
  {
  }

  lemma ExecuteLeaves(store: Store, target: Operation, env: Environment, cluster: string)
    requires IsStored(target, store) && target.meta.cluster == cluster
    ensures LeavesRecords(store, Execute(store, target, env), cluster)
  {
    if env.execution.Some? {
      var (updated, parsed) := UpdateResult(target, env.execution, true, env.recordTime);
      assert parsed ==> updated.CurrentTaskID() == env.execution.value.taskId;
      assert updated.meta == target.meta;
      hide UpdateResult;
    }
  }

  /** What may be chosen is a stop of a running operation, or its task has stopped. */
  lemma ChosenHasStopped(w: World, cluster: string, ops: seq<Operation>, now: int, target: Operation)
    requires Inv(w) && Mirrors(ops, w.ops, cluster) && IsSound(ops, now, Run(target))
    ensures IsStored(target, w.ops) && target.meta.cluster == cluster
    ensures IsStopOfRunning(target) || HasStopped(target, w.cc)
  {
    var n := target.meta.name;
    assert IsStored(target, w.ops);
    assert RecordOk(w.ops[n], w.cc, w.clock, Of(w.attempts, n), Of(w.runs, n));
  }

  lemma GuardedSends(w: World, store: Store, cluster: string, ops: seq<Operation>, target: Operation,
                     status: CruiseControlStatus, env: Environment)
    requires IsStored(target, store) && target.meta.cluster == cluster && SameIds(w.ops, store, cluster)
    requires IsStopOfRunning(target) || HasStopped(target, w.cc)
    ensures
      var out := Guarded(store, ops, target, status, env);
      LeavesRecords(w.ops, out, cluster) && SendsSoundly(w.ops, out, w.cc, cluster)
  {
    hide HasStopped, IsStopOfRunning, Blocked, LeavesRecords;
    NothingSent(w.ops, store, w.cc, cluster);
    ExecuteLeaves(store, target, env, cluster);
    assert SendsSoundly(store, Execute(store, target, env), w.cc, cluster);
    FromSameIds(w.ops, store, Execute(store, target, env), w.cc, cluster);
  }

  lemma PausedSends(w: World, cluster: string, ops: seq<Operation>, p: Operation, target: Operation,
                    status: CruiseControlStatus, env: Environment)
    requires Inv(w) && Mirrors(ops, w.ops, cluster) && IsSound(ops, env.selectTime, PauseThenRun(p, target))
    ensures p.meta.name in w.ops && target.status.currentTask.Some?
    ensures
      var paused := WithPause(w.ops, p.meta.name, env.pauseWrite);
      var out := if env.pauseWrite != Handled then Outcome(paused, None) else Guarded(paused, ops, target, status, env);
      LeavesRecords(w.ops, out, cluster) && SendsSoundly(w.ops, out, w.cc, cluster)
  {
    assert p.meta.cluster == cluster && w.ops[p.meta.name] == p;
    var paused := WithPause(w.ops, p.meta.name, env.pauseWrite);
    assert SameIds(w.ops, paused, cluster);
    assert IsSound(ops, env.selectTime, Run(target));
    hide Inv, Mirrors, IsSound, HasStopped, Guarded, IsStored, LeavesRecords, SendsSoundly, SameIds, Idle, Sendable;
    PauseFacts(w.ops, cluster, ops, p, target, env.selectTime);
    ChosenHasStopped(w, cluster, ops, env.selectTime, target);
    NothingSent(w.ops, paused, w.cc, cluster);
    if env.pauseWrite == Handled {
      GuardedSends(w, paused, cluster, ops, target, status, env);
    }
  }

  lemma SameIdsAsSelf(store: Store, cluster: string)
    ensures SameIds(store, store, cluster)
  {
  }

  lemma DispatchSends(w: World, cluster: string, ops: seq<Operation>, status: CruiseControlStatus, env: Environment)
    requires Inv(w) && Mirrors(ops, w.ops, cluster)
    ensures forall x :: x in ops ==> x.status.currentTask.Some?
    ensures
      var out := Dispatch(w.ops, ops, status, env);
      LeavesRecords(w.ops, out, cluster) && SendsSoundly(w.ops, out, w.cc, cluster)
  {
    assert forall x :: x in ops ==> x.status.currentTask.Some?;
    hide Inv, Mirrors, IsSound, Guarded, LeavesRecords, SendsSoundly, SameIds, HasStopped, IsStored;
    ChoiceIsSound(ops, env.selectTime);
    SameIdsAsSelf(w.ops, cluster);
    NothingSent(w.ops, w.ops, w.cc, cluster);
    match Choose(ops, env.selectTime)
    case Nothing =>
    case Run(target) =>
      ChosenHasStopped(w, cluster, ops, env.selectTime, target);
      GuardedSends(w, w.ops, cluster, ops, target, status, env);
    case PauseThenRun(p, target) => PausedSends(w, cluster, ops, p, target, status, env);
  }

  lemma PolledSameIds(store: Store, written: Store, cluster: string, results: map<string, TaskResult>, now: int)
    requires written.Keys == store.Keys
    requires forall n :: n in store ==> written[n] == store[n] || written[n] == Polled(store[n], cluster, results, now)
    ensures SameIds(store, written, cluster)
  {
    forall n | n in store
      ensures written[n].meta == store[n].meta && written[n].CurrentTaskID() == store[n].CurrentTaskID()
      ensures store[n].meta.cluster != cluster ==> written[n] == store[n]
    {
      PolledSameId(store[n], cluster, results, now);
    }
  }

  lemma PolledSameId(op: Operation, cluster: string, results: map<string, TaskResult>, now: int)
    ensures
      var op' := Polled(op, cluster, results, now);
      && op'.meta == op.meta && op'.CurrentTaskID() == op.CurrentTaskID()
      && (op.meta.cluster != cluster ==> op' == op)
  {
  }

  lemma ScheduleSends(w: World, request: string, status: CruiseControlStatus, env: Environment)
    requires Inv(w) && request in w.ops && IsListing(env.listing, w.ops) && w.clock <= env.refreshTime
    requires env.userTasks.Some? ==> Reports(ByTaskID(env.userTasks.value), w.cc, w.ops[request].meta.cluster, w.ops)
    ensures
      var cluster, out := w.ops[request].meta.cluster, Schedule(w.ops, request, status, env);
      LeavesRecords(w.ops, out, cluster) && SendsSoundly(w.ops, out, w.cc, cluster)
  {
    hide Inv, Mirrors, Dispatch, WriteChanged, Reports, LeavesRecords, SendsSoundly, SameIds, Polled, Refreshed;
    var cluster := w.ops[request].meta.cluster;
    SameIdsAsSelf(w.ops, cluster);
    NothingSent(w.ops, w.ops, w.cc, cluster);
    if env.userTasks.Some? {
      var results := ByTaskID(env.userTasks.value);
      var before := Eligible(w.ops, env.listing, cluster);
      var after := RefreshAll(before, results, env.refreshTime);
      var (written, ok) := WriteChanged(w.ops, before, after, env.refreshWrites);
      PolledMirrors(w, env.listing, cluster, results, env.refreshTime, env.refreshWrites);
      RefreshStageSpec(w.ops, env.listing, cluster, results, env.refreshTime, env.refreshWrites);
      PolledSameIds(w.ops, written, cluster, results, env.refreshTime);
      NothingSent(w.ops, written, w.cc, cluster);
      if ok {
        if written[request].IsFinalizerNeeded() && !written[request].IsCurrentTaskRunning() {
          FinalizerSameIds(w.ops, written, request, cluster);
          NothingSent(w.ops, WithoutFinalizer(written, request), w.cc, cluster);
        } else {
          DispatchSends(w.(ops := written, clock := env.refreshTime), cluster, after, status, env);
          FromSameIds(w.ops, written, Dispatch(written, after, status, env), w.cc, cluster);
        }
      }
    }
  }

  /** Adding or removing the finalizer of an operation of the cluster. */
  lemma FinalizerSameIds(store: Store, store': Store, name: string, cluster: string)
    requires SameIds(store, store', cluster) && name in store' && store'[name].meta.cluster == cluster
    ensures SameIds(store, WithoutFinalizer(store', name), cluster)
    ensures SameIds(store, WithFinalizer(store', name), cluster)
  {
    hide SameIds;
    OneSameId(store, store', name, store'[name].meta.(finalizer := false), cluster);
    OneSameId(store, store', name, store'[name].meta.(finalizer := true), cluster);
  }

  lemma OneSameId(store: Store, store': Store, name: string, meta: ObjectMeta, cluster: string)
    requires SameIds(store, store', cluster) && name in store' && store'[name].meta.cluster == meta.cluster == cluster
    ensures SameIds(store, store' - {name}, cluster)
    ensures SameIds(store, store'[name := store'[name].(meta := meta)], cluster)
  {
  }

  lemma ReconcileSends(w: World, request: string, env: Environment)
    requires Inv(w) && request in w.ops && Allowed(w, Reconciled(request, env))
    ensures
      var cluster, out := w.ops[request].meta.cluster, Reconcile(w.ops, request, env);
      LeavesRecords(w.ops, out, cluster) && SendsSoundly(w.ops, out, w.cc, cluster)
  {
    hide Inv, Schedule, Reports, LeavesRecords, SendsSoundly, SameIds, WithFinalizer, WithoutFinalizer, IsAnswer;
    var cluster := w.ops[request].meta.cluster;
    SameIdsAsSelf(w.ops, cluster);
    NothingSent(w.ops, w.ops, w.cc, cluster);
    FinalizerSameIds(w.ops, w.ops, request, cluster);
    NothingSent(w.ops, WithoutFinalizer(w.ops, request), w.cc, cluster);
    NothingSent(w.ops, WithFinalizer(w.ops, request), w.cc, cluster);
    AdmissionKeeps(w, request, env.listing);
    if env.status.Some? {
      var status, admitted := env.status.value, WithFinalizer(w.ops, request);
      ScheduleSends(w, request, status, env);
      ScheduleSends(w.(ops := admitted), request, status, env);
      FromSameIds(w.ops, admitted, Schedule(admitted, request, status, env), w.cc, cluster);
    }
  }

  // ---------------------------------------------------------------------------
  // Runs, state by state

  /** The states of a run. */
  lemma {:induction false} RunPrefix(w: World, events: seq<Event>, k: nat)
    requires IsRun(w, events) && k <= |events|
    ensures IsRun(w, events[..k])
    ensures k < |events| ==>
      && Allowed(Play(w, events[..k]), events[k])
      && IsRun(w, events[..k + 1]) && Play(w, events[..k + 1]) == Apply(Play(w, events[..k]), events[k])
    decreases k
  {
    hide Apply, Reports, IsAnswer;
    if k == 0 {
      if events != [] {
        assert events[..1][1..] == [] && events[..1][0] == events[0];
      }
    } else {
      RunPrefix(Apply(w, events[0]), events[1..], k - 1);
      assert events[..k][1..] == events[1..][..k - 1] && events[..k][0] == events[0];
      if k < |events| {
        assert events[..k + 1][1..] == events[1..][..k] && events[..k + 1][0] == events[0];
      }
    }
  }

  /** Every state of a run is sound. */
  lemma PrefixInv(w: World, events: seq<Event>, k: nat)
    requires IsInitial(w) && IsRun(w, events) && k <= |events|
    ensures IsRun(w, events[..k]) && Inv(Play(w, events[..k]))
  {
    RunPrefix(w, events, k);
    InitialInv(w);
    RunKeeps(w, events[..k]);
  }

  // ---------------------------------------------------------------------------
  // What is sent, and what Cruise Control makes of it

  /** What an event sends to Cruise Control. */
  function SentBy(w: World, e: Event): Option<Execution>
    requires e.Reconciled? ==> forall n :: n in e.env.listing ==> n in w.ops
  {
    if e.Reconciled? then Reconcile(w.ops, e.request, e.env).execution else None
  }

  lemma DispatchUnlessBusy(store: Store, ops: seq<Operation>, status: CruiseControlStatus, env: Environment)
    requires forall x :: x in ops ==> x.status.currentTask.Some?
    requires Dispatch(store, ops, status, env).execution.Some?
    ensures env.execution == Some(Dispatch(store, ops, status, env).execution.value.result)
    ensures status.inExecution ==>
      Dispatch(store, ops, status, env).execution.value.target.CurrentTaskKind() == StopExecution
  {
    hide Choose, UpdateResult, QueueOf;
    ChoiceIsSound(ops, env.selectTime);
  }

  lemma SentUnlessBusy(store: Store, request: string, env: Environment)
    requires forall n :: n in env.listing ==> n in store
    requires Reconcile(store, request, env).execution.Some?
    ensures request in store && env.status.Some?
    ensures env.execution == Some(Reconcile(store, request, env).execution.value.result)
    ensures env.status.value.inExecution ==>
      Reconcile(store, request, env).execution.value.target.CurrentTaskKind() == StopExecution
  {
    hide Eligible, WriteChanged, RefreshAll, Dispatch;
    var adds := !store[request].meta.deleting && !store[request].meta.finalizer;
    var admitted := if adds then WithFinalizer(store, request) else store;
    var cluster := admitted[request].meta.cluster;
    EligibleHaveTasks(admitted, env.listing, cluster);
    var before := Eligible(admitted, env.listing, cluster);
    var after := RefreshAll(before, ByTaskID(env.userTasks.value), env.refreshTime);
    RefreshedHaveTasks(before, ByTaskID(env.userTasks.value), env.refreshTime);
    DispatchUnlessBusy(WriteChanged(admitted, before, after, env.refreshWrites).0, after, env.status.value, env);
  }

  lemma RefreshedHaveTasks(before: seq<Operation>, results: map<string, TaskResult>, now: int)
    requires forall x :: x in before ==> x.status.currentTask.Some?
    ensures |RefreshAll(before, results, now)| == |before|
    ensures forall x :: x in RefreshAll(before, results, now) ==> x.status.currentTask.Some?
  {
  }

  /** Cruise Control's answers revive nothing. */
  lemma EventAdvances(w: World, e: Event)
    requires Inv(w) && Allowed(w, e)
    ensures Advances(w.cc, Apply(w, e).cc)
  {
    hide Inv, Reconcile, LeavesRecords;
    if e.Reconciled? && e.request in w.ops && SentBy(w, e).Some? {
      ReconcileSends(w, e.request, e.env);
      SentUnlessBusy(w.ops, e.request, e.env);
    } else if e.Reconciled? && e.request !in w.ops {
      NothingWithoutRequest(w.ops, e.request, e.env);
    }
  }

  lemma NothingWithoutRequest(store: Store, request: string, env: Environment)
    requires request !in store && forall n :: n in env.listing ==> n in store
    ensures Reconcile(store, request, env) == Outcome(store, None)
  {
  }

  /** Between two states of a run no task is forgotten, and none that has stopped runs again. */
  lemma {:induction false} RunAdvances(w: World, events: seq<Event>, j: nat, k: nat)
    requires IsInitial(w) && IsRun(w, events) && j <= k <= |events|
    ensures IsRun(w, events[..j]) && IsRun(w, events[..k])
    ensures Advances(Play(w, events[..j]).cc, Play(w, events[..k]).cc)
    decreases k
  {
    hide Inv, Apply, Play, IsRun, IsInitial;
    RunPrefix(w, events, j);
    RunPrefix(w, events, k);
    if j < k {
      RunAdvances(w, events, j, k - 1);
      RunPrefix(w, events, k - 1);
      PrefixInv(w, events, k - 1);
      EventAdvances(Play(w, events[..k - 1]), events[k - 1]);
    }
  }
}
