/**
 Deleting operations: when a record goes, which tasks may then still run, and
 which operations are sent without the finalizer.
 */
module SchedulerFinalizers {
  import opened Wrappers
  import opened ApiServer
  import opened OperationTypes
  import opened OperationResult
  import opened OperationQueues
  import opened ReconcileStep
  import opened RefreshStage
  import opened SchedulerWorld
  import opened SchedulerInvariant
  import opened SchedulerSafety
  import opened SchedulerSending

  // ---------------------------------------------------------------------------
  // When a record goes

  lemma DispatchKeepsKeys(store: Store, ops: seq<Operation>, status: CruiseControlStatus, env: Environment)
    requires forall x :: x in ops ==> x.status.currentTask.Some?
    ensures Dispatch(store, ops, status, env).store.Keys == store.Keys
  {
    hide Choose, UpdateResult, Blocked;
    ChoiceIsSound(ops, env.selectTime);
  }

  /** Polling went through, and shows the operation being finalized and not running. */
  predicate ShowsStopped(store: Store, name: string, env: Environment)
    requires name in store && forall n :: n in env.listing ==> n in store
  {
    env.userTasks.Some? &&
    var before := Eligible(store, env.listing, store[name].meta.cluster);
    var after := RefreshAll(before, ByTaskID(env.userTasks.value), env.refreshTime);
    var op := Polled(store[name], store[name].meta.cluster, ByTaskID(env.userTasks.value), env.refreshTime);
    WriteChanged(store, before, after, env.refreshWrites).1 && op.IsFinalizerNeeded() && !op.IsCurrentTaskRunning()
  }

  /**
   Scheduling takes away no record but that of the reconciled operation, exactly
   when polling shows that it has stopped.
   */
  lemma ScheduleKeys(store: Store, request: string, status: CruiseControlStatus, env: Environment)
    requires request in store && IsListing(env.listing, store)
    ensures Schedule(store, request, status, env).store.Keys ==
      if env.metaWrite.TakesEffect() && ShowsStopped(store, request, env) then store.Keys - {request} else store.Keys
  {
    hide Dispatch, Eligible, WriteChanged, Refreshed, Polled, IsListing;
    var cluster := store[request].meta.cluster;
    ListingIsStored(env.listing, store);
    EligibleHaveTasks(store, env.listing, cluster);
    if env.userTasks.Some? {
      var results := ByTaskID(env.userTasks.value);
      RefreshStageSpec(store, env.listing, cluster, results, env.refreshTime, env.refreshWrites);
      var before := Eligible(store, env.listing, cluster);
      var after := RefreshAll(before, results, env.refreshTime);
      var (written, ok) := WriteChanged(store, before, after, env.refreshWrites);
      RefreshedHaveTasks(before, results, env.refreshTime);
      DispatchKeepsKeys(written, after, status, env);
    }
  }

  lemma ListingIsStored(listing: seq<string>, store: Store)
    requires IsListing(listing, store)
    ensures forall n :: n in listing ==> n in store
  {
  }

  /** The circumstances in which the reconcile of an operation that is being deleted takes its record away. */
  predicate Drops(store: Store, name: string, env: Environment)
    requires name in store && forall n :: n in env.listing ==> n in store
  {
    && store[name].meta.deleting && env.metaWrite.TakesEffect()
    && (|| (store[name].meta.finalizer && store[name].IsDone())
        || (store[name].meta.cluster != "" && env.cluster == ClusterMissing)
        || (store[name].meta.cluster != "" && env.cluster == ClusterFound &&
            env.scaler && env.status.Some? && env.status.value.ready && ShowsStopped(store, name, env)))
  }

  /** A supported operation leaves the store in a reconcile exactly in these circumstances. */
  lemma ReconcileDropsExactlyWhen(store: Store, request: string, env: Environment, name: string)
    requires IsListing(env.listing, store) && name in store && store[name].IsValid()
    ensures name !in Reconcile(store, request, env).store <==> request == name && Drops(store, name, env)
  {
    hide Schedule, ShowsStopped;
    if request in store {
      AdmitDrops(store, request, env, name);
    }
  }

  /** A reconcile takes away no record but that of its own operation. */
  lemma OthersStay(store: Store, request: string, env: Environment, name: string)
    requires IsListing(env.listing, store) && name in store && name != request
    ensures name in Reconcile(store, request, env).store
  {
    hide Schedule, ShowsStopped;
    if request in store {
      AdmitDrops(store, request, env, name);
    }
  }

  lemma AdmitDrops(store: Store, request: string, env: Environment, name: string)
    requires IsListing(env.listing, store) && name in store && request in store
    ensures name !in Admit(store, request, env).store <==>
      && request == name && store[name].meta.deleting && env.metaWrite.TakesEffect()
      && env.scaler && env.status.Some? && env.status.value.ready && ShowsStopped(store, name, env)
  {
    hide Schedule, ShowsStopped;
    var adds := !store[request].meta.deleting && !store[request].meta.finalizer;
    var admitted := if adds && env.metaWrite.TakesEffect() then WithFinalizer(store, request) else store;
    assert IsListing(env.listing, admitted);
    if env.status.Some? {
      ScheduleKeys(admitted, request, env.status.value, env);
      ShownIsDeleting(admitted, request, env);
    }
    ShownIsDeleting(store, request, env);
  }

  lemma ShownIsDeleting(store: Store, name: string, env: Environment)
    requires name in store && forall n :: n in env.listing ==> n in store
    ensures ShowsStopped(store, name, env) ==> store[name].meta.deleting
  {
    if env.userTasks.Some? {
      PolledSameId(store[name], store[name].meta.cluster, ByTaskID(env.userTasks.value), env.refreshTime);
    }
    hide Polled, Eligible, WriteChanged;
  }

  lemma PolledHasStopped(op: Operation, results: map<string, TaskResult>, cc: CruiseControl, clock: int, now: int,
                         attempts: seq<Task>, runs: seq<Timing>)
    requires op.IsValid() && RecordOk(op, cc, clock, attempts, runs) && HasStates(cc)
    requires IsEligible(op, op.meta.cluster) ==> ReportsTask(results, cc, op.meta.cluster, op.CurrentTaskID())
    requires !Polled(op, op.meta.cluster, results, now).IsCurrentTaskRunning()
    ensures HasStopped(op, cc)
  {
  }

  lemma DoneHasStopped(op: Operation, cc: CruiseControl, clock: int, attempts: seq<Task>, runs: seq<Timing>)
    requires op.IsValid() && RecordOk(op, cc, clock, attempts, runs) && op.IsDone()
    ensures HasStopped(op, cc)
  {
  }

  // ---------------------------------------------------------------------------
  // Everything that was sent for a record

  /** The record took down the task of the i-th request, and no stop has taken its place since. */
  predicate IsFollowed(sent: seq<Sending>, i: nat)
    requires i < |sent|
  {
    sent[i].recorded && forall j :: i < j < |sent| ==> !(sent[j].overrides && sent[j].recorded)
  }

  /** Every task that was sent is known, and one that the record followed has stopped unless the record names it. */
  ghost predicate SentOk(cluster: string, id: string, cc: CruiseControl, sent: seq<Sending>) {
    forall i :: 0 <= i < |sent| ==>
      var ref := TaskRef(cluster, sent[i].id);
      sent[i].id != "" && ref in cc && (IsFollowed(sent, i) && sent[i].id != id ==> !IsLive(cc[ref]))
  }

  ghost predicate SentInv(w: World) {
    forall n :: n in w.ops ==> SentOk(w.ops[n].meta.cluster, w.ops[n].CurrentTaskID(), w.cc, Of(w.sent, n))
  }

  lemma SentOkLater(cluster: string, id: string, cc: CruiseControl, cc': CruiseControl, sent: seq<Sending>)
    requires SentOk(cluster, id, cc, sent) && Advances(cc, cc')
    ensures SentOk(cluster, id, cc', sent)
  {
    hide IsFollowed;
  }

  /** One more request, for an operation whose task runs or has stopped. */
  lemma SentOkExtended(op: Operation, cc: CruiseControl, sent: seq<Sending>, s: Sending, state: TaskState)
    requires SentOk(op.meta.cluster, op.CurrentTaskID(), cc, sent)
    requires s.id != "" && (s.overrides || HasStopped(op, cc))
    requires Advances(cc, cc[TaskRef(op.meta.cluster, s.id) := Known(state)])
    ensures
      var cc' := cc[TaskRef(op.meta.cluster, s.id) := Known(state)];
      SentOk(op.meta.cluster, if s.recorded then s.id else op.CurrentTaskID(), cc', sent + [s])
  {
    var all := sent + [s];
    forall i | 0 <= i < |sent| ensures IsFollowed(all, i) <==> IsFollowed(sent, i) && !(s.overrides && s.recorded) {
      assert forall j :: 0 <= j < |sent| ==> all[j] == sent[j];
      assert all[|sent|] == s;
    }
  }

  lemma ReconcileKeepsSent(w: World, request: string, env: Environment)
    requires Inv(w) && SentInv(w) && Allowed(w, Reconciled(request, env)) && request in w.ops
    ensures SentInv(Apply(w, Reconciled(request, env)))
  {
    hide Inv, Reconcile, SentOk, HasStopped, Reports, Advances;
    var e := Reconciled(request, env);
    var w', out, cluster := Apply(w, e), Reconcile(w.ops, request, env), w.ops[request].meta.cluster;
    ReconcileSends(w, request, env);
    EventAdvances(w, e);
    if out.execution.Some? {
      SentUnlessBusy(w.ops, request, env);
    }
    forall n | n in w'.ops
      ensures SentOk(w'.ops[n].meta.cluster, w'.ops[n].CurrentTaskID(), w'.cc, Of(w'.sent, n))
    {
      var op := w.ops[n];
      SentOkLater(op.meta.cluster, op.CurrentTaskID(), w.cc, w'.cc, Of(w.sent, n));
      if out.execution.Some? && out.execution.value.target.meta.name == n {
        SameStopped(op, out.execution.value.target, w.cc);
        SentOkExtended(op, w.cc, Of(w.sent, n), SendingOf(out.execution.value), out.execution.value.result.state);
      }
    }
  }

  lemma SameStopped(a: Operation, b: Operation, cc: CruiseControl)
    requires a.meta.cluster == b.meta.cluster && a.CurrentTaskID() == b.CurrentTaskID()
    ensures HasStopped(a, cc) <==> HasStopped(b, cc)
  {
  }

  /** Events other than reconciles leave clusters and ids of the records alone, and send nothing. */
  lemma OtherKeepsSent(w: World, e: Event)
    requires Inv(w) && SentInv(w) && Allowed(w, e) && !e.Reconciled?
    ensures SentInv(Apply(w, e))
  {
    EventAdvances(w, e);
    var w' := Apply(w, e);
    forall n | n in w'.ops
      ensures SentOk(w'.ops[n].meta.cluster, w'.ops[n].CurrentTaskID(), w'.cc, Of(w'.sent, n))
    {
      hide SentOk, Inv;
      if e.Create? && n == e.op.meta.name {
        NothingSentIsOk(w'.ops[n].meta.cluster, w'.ops[n].CurrentTaskID(), w'.cc);
      } else {
        SentOkLater(w.ops[n].meta.cluster, w.ops[n].CurrentTaskID(), w.cc, w'.cc, Of(w.sent, n));
      }
    }
  }

  lemma NothingSentIsOk(cluster: string, id: string, cc: CruiseControl)
    ensures SentOk(cluster, id, cc, [])
  {
  }

  lemma {:induction false} RunKeepsSent(w: World, events: seq<Event>)
    requires Inv(w) && SentInv(w) && IsRun(w, events)
    ensures Inv(Play(w, events)) && SentInv(Play(w, events))
    decreases |events|
  {
    hide Inv, SentInv, Reconcile;
    if events != [] {
      var e := events[0];
      StepKeeps(w, e);
      if !e.Reconciled? {
        OtherKeepsSent(w, e);
      } else if e.request in w.ops {
        ReconcileKeepsSent(w, e.request, e.env);
      } else {
        NothingWithoutRequest(w.ops, e.request, e.env);
        SentInvIgnoresClock(w, e.env.recordTime);
      }
      RunKeepsSent(Apply(w, e), events[1..]);
    }
  }

  lemma SentInvIgnoresClock(w: World, clock: int)
    requires SentInv(w)
    ensures SentInv(w.(clock := clock))
  {
  }

  /** The i-th task that was sent for an operation runs. */
  ghost predicate Runs(w: World, name: string, i: nat)
    requires name in w.ops && i < |Of(w.sent, name)|
  {
    var ref := TaskRef(w.ops[name].meta.cluster, Of(w.sent, name)[i].id);
    ref in w.cc && IsLive(w.cc[ref])
  }

  /**
   In every run, when an event takes away the record of a supported operation
   that carries the finalizer, the operation was being deleted and the event is
   its own reconcile; and, unless the Kafka cluster is gone, of all the tasks
   that were ever sent for it only two kinds can still run: those whose answer
   was not recorded, and those whose id a stop has replaced.
   */
  lemma RecordOutlivesTask(w: World, events: seq<Event>, e: Event, name: string)
    requires IsInitial(w) && IsRun(w, events) && Allowed(Play(w, events), e)
    requires
      var ops := Play(w, events).ops;
      name in ops && ops[name].IsValid() && ops[name].meta.finalizer && name !in Apply(Play(w, events), e).ops
    ensures
      var w' := Play(w, events);
      && e.Reconciled? && e.request == name && w'.ops[name].meta.deleting
      && (e.env.cluster == ClusterMissing ||
          (HasStopped(w'.ops[name], w'.cc) &&
           forall i :: 0 <= i < |Of(w'.sent, name)| && Runs(w', name, i) ==> !IsFollowed(Of(w'.sent, name), i)))
  {
    InitialInv(w);
    RunKeepsSent(w, events);
    hide *;
    GoneOutlives(Play(w, events), e, name);
  }

  lemma GoneOutlives(w: World, e: Event, name: string)
    requires Inv(w) && SentInv(w) && Allowed(w, e)
    requires name in w.ops && w.ops[name].IsValid() && w.ops[name].meta.finalizer && name !in Apply(w, e).ops
    ensures e.Reconciled? && e.request == name && w.ops[name].meta.deleting
    ensures e.env.cluster == ClusterMissing ||
      (HasStopped(w.ops[name], w.cc) &&
       forall i :: 0 <= i < |Of(w.sent, name)| && Runs(w, name, i) ==> !IsFollowed(Of(w.sent, name), i))
  {
    hide Inv, SentInv, Reconcile, Drops, SentOk, HasStopped, Runs, IsFollowed;
    if e.Reconciled? {
      ReconcileDropsExactlyWhen(w.ops, e.request, e.env, name);
      DropsMeansDeleting(w.ops, name, e.env);
      if e.env.cluster != ClusterMissing {
        DroppedHasStopped(w, name, e.env);
        OnlyUnfollowedRun(w, name);
      }
    }
  }

  lemma DropsMeansDeleting(store: Store, name: string, env: Environment)
    requires name in store && (forall n :: n in env.listing ==> n in store) && Drops(store, name, env)
    ensures store[name].meta.deleting
  {
    hide ShowsStopped;
  }

  lemma OnlyUnfollowedRun(w: World, name: string)
    requires SentInv(w) && name in w.ops && HasStopped(w.ops[name], w.cc)
    ensures forall i :: 0 <= i < |Of(w.sent, name)| && Runs(w, name, i) ==> !IsFollowed(Of(w.sent, name), i)
  {
    hide IsFollowed;
  }

  lemma DroppedHasStopped(w: World, name: string, env: Environment)
    requires Inv(w) && name in w.ops && w.ops[name].IsValid() && Allowed(w, Reconciled(name, env))
    requires Drops(w.ops, name, env) && env.cluster != ClusterMissing
    ensures HasStopped(w.ops[name], w.cc)
  {
    hide Eligible, WriteChanged, RefreshAll, Polled, HasStopped, RecordOk;
    var op := w.ops[name];
    assert RecordOk(op, w.cc, w.clock, Of(w.attempts, name), Of(w.runs, name));
    if op.IsDone() {
      DoneHasStopped(op, w.cc, w.clock, Of(w.attempts, name), Of(w.runs, name));
    } else {
      PolledHasStopped(op, ByTaskID(env.userTasks.value), w.cc, w.clock, env.refreshTime, Of(w.attempts, name),
                       Of(w.runs, name));
    }
  }

  // ---------------------------------------------------------------------------
  // Operations that are sent without the finalizer

  lemma DispatchTarget(store: Store, ops: seq<Operation>, status: CruiseControlStatus, env: Environment)
    requires forall x :: x in ops ==> x.status.currentTask.Some?
    requires Dispatch(store, ops, status, env).execution.Some?
    ensures exists y :: y in ops && Dispatch(store, ops, status, env).execution.value.target.meta == y.meta
  {
    hide Choose, UpdateResult, Blocked;
    ChoiceIsSound(ops, env.selectTime);
  }

  lemma ScheduleTarget(store: Store, request: string, status: CruiseControlStatus, env: Environment)
    requires request in store && IsListing(env.listing, store)
    requires Schedule(store, request, status, env).execution.Some?
    ensures
      var meta := Schedule(store, request, status, env).execution.value.target.meta;
      meta.name in store && meta == store[meta.name].meta
  {
    hide Dispatch, Eligible, WriteChanged, Refreshed;
    var cluster := store[request].meta.cluster;
    var results := ByTaskID(env.userTasks.value);
    RefreshStageSpec(store, env.listing, cluster, results, env.refreshTime, env.refreshWrites);
    var before := Eligible(store, env.listing, cluster);
    var after := RefreshAll(before, results, env.refreshTime);
    var (written, ok) := WriteChanged(store, before, after, env.refreshWrites);
    EligibleHaveTasks(store, env.listing, cluster);
    RefreshedHaveTasks(before, results, env.refreshTime);
    DispatchTarget(written, after, status, env);
    var y :| y in after && Dispatch(written, after, status, env).execution.value.target.meta == y.meta;
    assert written[y.meta.name] == Polled(store[y.meta.name], cluster, results, env.refreshTime);
    RefreshedFrame(store[y.meta.name], results, env.refreshTime);
  }

  /**
   The finalizer is added to the operation that is reconciled, not to the one
   that is sent: an operation is sent with the finalizer exactly when it is the
   reconciled one or had it before.
   */
  lemma SentWithFinalizerExactlyWhen(store: Store, request: string, env: Environment)
    requires IsListing(env.listing, store)
    requires (request in store && store[request].meta.deleting ==> store[request].meta.finalizer)
    requires Reconcile(store, request, env).execution.Some?
    ensures
      var meta := Reconcile(store, request, env).execution.value.target.meta;
      meta.name in store && (meta.finalizer <==> meta.name == request || store[meta.name].meta.finalizer)
  {
    hide Schedule;
    var adds := !store[request].meta.deleting && !store[request].meta.finalizer;
    var admitted := if adds then WithFinalizer(store, request) else store;
    assert IsListing(env.listing, admitted);
    ScheduleTarget(admitted, request, env.status.value, env);
  }
}
