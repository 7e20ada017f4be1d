/**
 What runs in Cruise Control when a request is sent: the tasks that the records
 follow have stopped, and with a true status nothing of the cluster executes.
 */
module SchedulerExclusion {
  import opened Wrappers
  import opened ApiServer
  import opened OperationTypes
  import opened OperationResult
  import opened OperationQueues
  import opened ReconcileStep
  import opened RefreshStage
  import opened SchedulerWorld
  import opened SchedulerInvariant
  import opened SchedulerSafety
  import opened SchedulerSending
  import opened SchedulerFinalizers

  // ---------------------------------------------------------------------------
  // One reconcile

  /** The tasks that the records of the cluster's supported operations name have stopped. */
  ghost predicate AllStopped(ops: Store, cc: CruiseControl, cluster: string) {
    forall n :: n in ops && ops[n].meta.cluster == cluster && ops[n].IsValid() ==> HasStopped(ops[n], cc)
  }

  /** What is not a stop is sent only when nothing is queued as running or to be stopped. */
  lemma DispatchGuard(store: Store, ops: seq<Operation>, status: CruiseControlStatus, env: Environment)
    requires forall x :: x in ops ==> x.status.currentTask.Some?
    requires Dispatch(store, ops, status, env).execution.Some?
    requires Dispatch(store, ops, status, env).execution.value.target.CurrentTaskKind() != StopExecution
    ensures IsEmpty(ops, ForStop) && IsEmpty(ops, InProgress)
  {
    hide Choose, UpdateResult, QueueOf, Classify;
    ChoiceIsSound(ops, env.selectTime);
    HeadSpec(ops, InProgress);
    if !IsEmpty(ops, ForStop) {
      FinalizingFirst(ops, env.selectTime);
    }
  }

  lemma StillHasStopped(op: Operation, cc: CruiseControl, clock: int, attempts: seq<Task>, runs: seq<Timing>)
    requires op.IsValid() && RecordOk(op, cc, clock, attempts, runs)
    requires op.IsDone() || (Classify(op).Some? && Classify(op) !in {Some(ForStop), Some(InProgress)})
    ensures HasStopped(op, cc)
  {
  }

  lemma MirroredHaveStopped(w: World, cluster: string, ops: seq<Operation>)
    requires Inv(w) && Mirrors(ops, w.ops, cluster) && IsEmpty(ops, ForStop) && IsEmpty(ops, InProgress)
    ensures AllStopped(w.ops, w.cc, cluster)
  {
    hide RecordOk, HasStopped, Classify;
    forall n | n in w.ops && w.ops[n].meta.cluster == cluster && w.ops[n].IsValid() ensures HasStopped(w.ops[n], w.cc) {
      if !w.ops[n].IsDone() {
        InSomeQueue(w.ops[n], w.cc, w.clock, Of(w.attempts, n), Of(w.runs, n));
      }
      StillHasStopped(w.ops[n], w.cc, w.clock, Of(w.attempts, n), Of(w.runs, n));
    }
  }

  /** Stopped is a matter of cluster and id. */
  lemma StoppedBefore(store: Store, store': Store, cc: CruiseControl, cluster: string)
    requires store'.Keys == store.Keys && AllStopped(store', cc, cluster)
    requires forall n :: n in store ==>
      && store'[n].meta.cluster == store[n].meta.cluster && store'[n].CurrentTaskID() == store[n].CurrentTaskID()
      && store'[n].IsValid() == store[n].IsValid()
    ensures AllStopped(store, cc, cluster)
  {
    hide HasStopped;
    forall n | n in store && store[n].meta.cluster == cluster && store[n].IsValid() ensures HasStopped(store[n], cc) {
      SameStopped(store'[n], store[n], cc);
    }
  }

  lemma PolledIsSame(op: Operation, cluster: string, results: map<string, TaskResult>, now: int)
    ensures
      var op' := Polled(op, cluster, results, now);
      op'.meta == op.meta && op'.CurrentTaskID() == op.CurrentTaskID() && op'.IsValid() == op.IsValid()
  {
  }

  lemma ScheduleGuard(w: World, request: string, status: CruiseControlStatus, env: Environment)
    requires Inv(w) && request in w.ops && IsListing(env.listing, w.ops) && w.clock <= env.refreshTime
    requires env.userTasks.Some? ==> Reports(ByTaskID(env.userTasks.value), w.cc, w.ops[request].meta.cluster, w.ops)
    requires Schedule(w.ops, request, status, env).execution.Some?
    requires Schedule(w.ops, request, status, env).execution.value.target.CurrentTaskKind() != StopExecution
    ensures AllStopped(w.ops, w.cc, w.ops[request].meta.cluster)
  {
    hide Inv, Mirrors, Dispatch, WriteChanged, Reports, AllStopped, Polled, Refreshed, IsEmpty;
    var cluster := w.ops[request].meta.cluster;
    var results := ByTaskID(env.userTasks.value);
    var before := Eligible(w.ops, env.listing, cluster);
    var after := RefreshAll(before, results, env.refreshTime);
    var (written, ok) := WriteChanged(w.ops, before, after, env.refreshWrites);
    PolledMirrors(w, env.listing, cluster, results, env.refreshTime, env.refreshWrites);
    RefreshStageSpec(w.ops, env.listing, cluster, results, env.refreshTime, env.refreshWrites);
    EligibleHaveTasks(w.ops, env.listing, cluster);
    RefreshedHaveTasks(before, results, env.refreshTime);
    DispatchGuard(written, after, status, env);
    MirroredHaveStopped(w.(ops := written, clock := env.refreshTime), cluster, after);
    forall n | n in w.ops
      ensures written[n].meta == w.ops[n].meta && written[n].CurrentTaskID() == w.ops[n].CurrentTaskID()
      ensures written[n].IsValid() == w.ops[n].IsValid()
    {
      PolledIsSame(w.ops[n], cluster, results, env.refreshTime);
    }
    StoppedBefore(w.ops, written, w.cc, cluster);
  }

  /** The event sends a request that is not a stop to the cluster. */
  ghost predicate SendsTo(w: World, e: Event, cluster: string) {
    && Allowed(w, e) && e.Reconciled? && SentBy(w, e).Some?
    && SentBy(w, e).value.target.CurrentTaskKind() != StopExecution && SentBy(w, e).value.target.meta.cluster == cluster
  }

  /** When a request that is not a stop is sent, the task that any record of the cluster names has stopped. */
  lemma ReconcileGuard(w: World, e: Event, cluster: string)
    requires Inv(w) && SendsTo(w, e, cluster)
    ensures e.request in w.ops && AllStopped(w.ops, w.cc, w.ops[e.request].meta.cluster)
  {
    hide Inv, Schedule, Reports, AllStopped, IsAnswer;
    var request, env := e.request, e.env;
    AdmissionKeeps(w, request, env.listing);
    var adds := !w.ops[request].meta.deleting && !w.ops[request].meta.finalizer;
    if adds {
      var admitted := WithFinalizer(w.ops, request);
      ScheduleGuard(w.(ops := admitted), request, env.status.value, env);
      StoppedBefore(w.ops, admitted, w.cc, w.ops[request].meta.cluster);
    } else {
      ScheduleGuard(w, request, env.status.value, env);
    }
  }

  // ---------------------------------------------------------------------------
  // Runs

  /** The i-th task sent for a stored operation of the cluster is one that its record follows. */
  ghost predicate IsFollowedTask(w: World, cluster: string, n: string, i: int) {
    && n in w.ops && w.ops[n].meta.cluster == cluster && w.ops[n].IsValid()
    && 0 <= i < |Of(w.sent, n)| && IsFollowed(Of(w.sent, n), i)
  }

  /** No task of the cluster that a stored record follows runs. */
  ghost predicate FollowedHaveStopped(w: World, cluster: string) {
    forall n, i :: IsFollowedTask(w, cluster, n, i) ==> !Runs(w, n, i)
  }

  lemma StoppedFollowed(w: World, cluster: string)
    requires SentInv(w) && AllStopped(w.ops, w.cc, cluster)
    ensures FollowedHaveStopped(w, cluster)
  {
    hide IsFollowed, HasStopped, Runs, SentInv;
    forall n, i | IsFollowedTask(w, cluster, n, i) ensures !Runs(w, n, i) {
      OnlyUnfollowedRun(w, n);
    }
  }

  /** Cruise Control executes a task of the cluster; a task that is merely active waits to be executed. */
  predicate IsExecuting(cc: CruiseControl, cluster: string) {
    exists ref :: ref in cc && ref.cluster == cluster && cc[ref] == Known(InExecution)
  }

  /** The status of Cruise Control says truly whether it executes something for the cluster. */
  ghost predicate TellsTruly(w: World, e: Event) {
    e.Reconciled? && e.request in w.ops && e.env.status.Some? ==>
      (e.env.status.value.inExecution <==> IsExecuting(w.cc, w.ops[e.request].meta.cluster))
  }

  lemma SendGuard(w: World, e: Event, cluster: string)
    requires Inv(w) && SentInv(w) && SendsTo(w, e, cluster)
    ensures FollowedHaveStopped(w, cluster)
    ensures TellsTruly(w, e) ==> !IsExecuting(w.cc, cluster)
  {
    hide Inv, SentInv, Reconcile, FollowedHaveStopped, AllStopped, Reports, IsAnswer, IsExecuting;
    SentUnlessBusy(w.ops, e.request, e.env);
    ReconcileSends(w, e.request, e.env);
    ReconcileGuard(w, e, cluster);
    StoppedFollowed(w, cluster);
  }

  /**
   In every run, when a request that is not a stop is sent to a cluster, no task
   that a stored record of the cluster follows runs; and if the status is true,
   nothing of the cluster is in execution.  What may be live then is active and
   waits, and is a task whose answer was not recorded, whose id a stop replaced,
   whose record has gone, or that somebody else started.
   */
  lemma SentOnlyWhenIdle(w: World, events: seq<Event>, e: Event, cluster: string)
    requires IsInitial(w) && IsRun(w, events) && SendsTo(Play(w, events), e, cluster)
    ensures FollowedHaveStopped(Play(w, events), cluster)
    ensures TellsTruly(Play(w, events), e) ==> !IsExecuting(Play(w, events).cc, cluster)
  {
    InitialInv(w);
    RunKeepsSent(w, events);
    hide *;
    SendGuard(Play(w, events), e, cluster);
  }

  /**
   From that moment on, a task that a record followed then never runs again: it
   does not overlap with the task that the request is given, nor with any later one.
   */
  lemma TasksDoNotOverlap(w: World, events: seq<Event>, cluster: string, j: nat, k: nat, name: string, i: nat)
    requires IsInitial(w) && IsRun(w, events) && j < k <= |events| && IsRun(w, events[..j])
    requires SendsTo(Play(w, events[..j]), events[j], cluster)
    requires IsFollowedTask(Play(w, events[..j]), cluster, name, i)
    ensures IsRun(w, events[..k])
    ensures
      var ref := TaskRef(cluster, Of(Play(w, events[..j]).sent, name)[i].id);
      ref in Play(w, events[..k]).cc && !IsLive(Play(w, events[..k]).cc[ref])
  {
    SentOnlyWhenIdle(w, events[..j], events[j], cluster);
    RunAdvances(w, events, j, k);
    InitialInv(w);
    RunKeepsSent(w, events[..j]);
    hide SendsTo, IsRun, Play, IsFollowed, Inv, IsInitial;
    var w' := Play(w, events[..j]);
    assert SentOk(w'.ops[name].meta.cluster, w'.ops[name].CurrentTaskID(), w'.cc, Of(w'.sent, name));
    assert !Runs(w', name, i);
  }
}
