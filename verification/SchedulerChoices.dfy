/**
 What a reconcile decides, seen from the stored records: when it sends anything
 at all, what is due to be sent, and that a failed removal of disks which gives
 way to a rebalance is paused and stays so.
 */
module SchedulerChoices {
  import opened Wrappers
  import opened ApiServer
  import opened OperationTypes
  import opened OperationResult
  import opened OperationQueues
  import opened ReconcileStep
  import opened RefreshStage
  import opened SchedulerWorld
  import opened SchedulerInvariant
  import opened SchedulerSafety
  import opened SchedulerSending

  // ---------------------------------------------------------------------------
  // A removal of disks that gives way

  /** The outcome pauses p and sends, if anything, the fresh rebalance x. */
  ghost predicate PausesFor(store: Store, out: Outcome, p: Operation, x: Operation) {
    && out.store.Keys == store.Keys && p.meta.name in store && store[p.meta.name] == p
    && out.store[p.meta.name] == p.(meta := p.meta.(paused := true))
    && out.store[p.meta.name].IsDone() && Classify(out.store[p.meta.name]).None?
    && (forall n :: n in store && n != p.meta.name ==> out.store[n].meta == store[n].meta)
    && (forall n :: n in store && n !in {p.meta.name, x.meta.name} ==> out.store[n] == store[n])
    && (out.execution.Some? ==> out.execution.value.target == x)
  }

  /** The leading failed operation is p, a removal of disks, and x leads the fresh rebalances. */
  ghost predicate GivesWayTo(ops: seq<Operation>, p: Operation, x: Operation) {
    && IsHead(ops, ForRetry, p) && p.CurrentTaskKind() == RemoveDisks && LeadsRebalances(ops, x)
    && IsEmpty(ops, ForStop) && !Has(ops, First, AddBroker)
  }

  /**
   When a fresh rebalance waits, a failed removal of disks that leads its queue is
   paused, and is done from then on; no other record but that of the rebalance
   changes.
   */
  lemma GivingWayPauses(store: Store, cluster: string, ops: seq<Operation>, status: CruiseControlStatus,
                        env: Environment, p: Operation, x: Operation)
    requires Mirrors(ops, store, cluster) && GivesWayTo(ops, p, x) && env.pauseWrite.TakesEffect()
    ensures forall y :: y in ops ==> y.status.currentTask.Some?
    ensures PausesFor(store, Dispatch(store, ops, status, env), p, x)
    ensures Dispatch(store, ops, status, env).execution.Some? <==>
      env.pauseWrite == Handled && !status.inExecution && IsEmpty(ops, InProgress) && env.execution.Some?
  {
    hide Choose, QueueOf, Peers, Select, InOrder, Dispatch, PausesFor;
    assert forall y :: y in ops ==> y.status.currentTask.Some?;
    ChosenWay(ops, env.selectTime, p, x);
    HeadSpec(ops, InProgress);
    assert store[p.meta.name] == p && store[x.meta.name] == x;
    PausedIsDone(p);
    PausedOutcome(store, ops, status, env, p, x);
  }

  lemma PausedIsDone(p: Operation)
    requires Classify(p) == Some(ForRetry)
    ensures p.(meta := p.meta.(paused := true)).IsDone() && Classify(p.(meta := p.meta.(paused := true))).None?
    ensures Classify(p) != Some(First)
  {
  }

  lemma PausedOutcome(store: Store, ops: seq<Operation>, status: CruiseControlStatus, env: Environment,
                      p: Operation, x: Operation)
    requires forall y :: y in ops ==> y.status.currentTask.Some?
    requires Choose(ops, env.selectTime) == PauseThenRun(p, x) && x.status.currentTask.Some?
    requires p.meta.name in store && x.meta.name in store && store[p.meta.name] == p && store[x.meta.name] == x
    requires p != x && x.CurrentTaskKind() == Rebalance && env.pauseWrite.TakesEffect()
    requires var q := p.(meta := p.meta.(paused := true)); q.IsDone() && Classify(q).None?
    ensures PausesFor(store, Dispatch(store, ops, status, env), p, x)
    ensures Dispatch(store, ops, status, env).execution.Some? <==>
      env.pauseWrite == Handled && !status.inExecution && QueueOf(ops, InProgress) == [] && env.execution.Some?
  {
    hide Choose, QueueOf, Classify, UpdateResult;
    ResultMeta(x, env.execution, env.recordTime);
  }

  lemma ResultMeta(x: Operation, answer: Option<TaskResult>, now: int)
    requires x.status.currentTask.Some?
    ensures UpdateResult(x, answer, true, now).0.meta == x.meta
  {
  }

  /** There is one leading failed operation and one leading rebalance. */
  lemma ChosenWay(ops: seq<Operation>, now: int, p: Operation, x: Operation)
    requires (forall y :: y in ops ==> y.status.currentTask.Some?) && GivesWayTo(ops, p, x)
    ensures Choose(ops, now) == PauseThenRun(p, x)
  {
    hide Choose, QueueOf, Classify, Peers, Select, InOrder;
    RetryThenFresh(ops, now);
    assert Has(ops, First, Rebalance);
    assert GivesWay(ops);
    HeadSpec(ops, ForRetry);
    var y := Choose(ops, now).op;
    SamePeers(ops, x, y);
  }

  lemma SamePeers(ops: seq<Operation>, x: Operation, y: Operation)
    requires LeadsRebalances(ops, x) && LeadsRebalances(ops, y)
    ensures x == y
  {
    hide Classify, Select, Peers;
    PeersOfPeers(Select(ops, First), x, y);
  }

  // ---------------------------------------------------------------------------
  // When a reconcile sends

  /** What a reconcile needs before it dispatches anything. */
  predicate MayDispatch(store: Store, request: string, env: Environment) {
    && request in store
    && var op := store[request];
    && IsSupported(op.CurrentTaskKind()) && op.meta.cluster != "" && env.cluster == ClusterFound
    && !(op.meta.finalizer && op.meta.deleting && op.IsDone())
    && (op.meta.finalizer || op.meta.deleting || env.metaWrite == Handled)
    && env.scaler && env.status.Some? && env.status.value.ready && env.userTasks.Some?
  }

  /** The store once the reconciled operation has its finalizer, unless it is being deleted. */
  function Admitted(store: Store, request: string): Store
    requires request in store
  {
    if store[request].meta.deleting then store
    else store[request := store[request].(meta := store[request].meta.(finalizer := true))]
  }

  /** The polled operations of the cluster, and the store after writing them; None when a write failed. */
  function PolledStage(store: Store, cluster: string, env: Environment): (seq<Operation>, Store, bool)
    requires (forall n :: n in env.listing ==> n in store) && env.userTasks.Some?
  {
    var before := Eligible(store, env.listing, cluster);
    var after := RefreshAll(before, ByTaskID(env.userTasks.value), env.refreshTime);
    var (written, ok) := WriteChanged(store, before, after, env.refreshWrites);
    (after, written, ok)
  }

  /**
   A reconcile sends only when its preconditions are met, polling went through
   and the reconciled operation is not merely to be released; then it dispatches
   what was polled.
   */
  lemma ReconcileDispatches(store: Store, request: string, env: Environment)
    requires forall n :: n in env.listing ==> n in store
    ensures !MayDispatch(store, request, env) ==> Reconcile(store, request, env).execution.None?
    ensures MayDispatch(store, request, env) ==>
      var (ops, written, ok) := PolledStage(Admitted(store, request), store[request].meta.cluster, env);
      var out := Reconcile(store, request, env);
      && (forall x :: x in ops ==> x.status.currentTask.Some?)
      && (!ok || request !in written ==> out == Outcome(written, None))
      && (ok && request in written ==>
            if written[request].IsFinalizerNeeded() && !written[request].IsCurrentTaskRunning() then
              out == Outcome(if env.metaWrite.TakesEffect() then WithoutFinalizer(written, request) else written, None)
            else out == Dispatch(written, ops, env.status.value, env))
  {
    hide Eligible, RefreshAll, WriteChanged, Dispatch, ByTaskID;
    if MayDispatch(store, request, env) {
      var admitted := Admitted(store, request);
      assert !store[request].meta.deleting && store[request].meta.finalizer ==> admitted == store;
      EligibleHaveTasks(admitted, env.listing, store[request].meta.cluster);
      RefreshedHaveTasks(Eligible(admitted, env.listing, store[request].meta.cluster),
                         ByTaskID(env.userTasks.value), env.refreshTime);
    }
  }

  // ---------------------------------------------------------------------------
  // What is due

  /**
   A target is due: a stop over the running task of an operation that is being
   deleted, an operation that was never executed, or one that failed, is to be
   retried, is not paused and has waited 30 s.
   */
  predicate IsDue(target: Operation, now: int) {
    || (target.CurrentTaskKind() == StopExecution && target.meta.deleting && target.meta.finalizer &&
        IsRunningState(target.CurrentTaskState()))
    || (target.CurrentTaskState() == NoState && target.CurrentTaskID() == "" && target.status.retryCount == 0)
    || (target.CurrentTaskState() == CompletedWithError && target.spec.errorPolicy == Retry && !target.meta.paused &&
        target.CurrentTaskFinished().Some? && target.CurrentTaskFinished().value + 30 * SECOND < now)
  }

  lemma DispatchedIsDue(store: Store, ops: seq<Operation>, status: CruiseControlStatus, env: Environment)
    requires forall x :: x in ops ==> x.status.currentTask.Some?
    requires Dispatch(store, ops, status, env).execution.Some?
    ensures
      var target := Dispatch(store, ops, status, env).execution.value.target;
      && IsDue(target, env.selectTime)
      && exists x :: x in ops && x.meta == target.meta && x.spec == target.spec
  {
    hide Choose, UpdateResult, QueueOf;
    ChoiceIsSound(ops, env.selectTime);
  }

  /**
   Whatever a reconcile sends is due, and is an operation of its cluster with the
   spec, the age and the pause label that are stored.
   */
  lemma SentIsDue(store: Store, request: string, env: Environment)
    requires IsListing(env.listing, store) && Reconcile(store, request, env).execution.Some?
    ensures MayDispatch(store, request, env)
    ensures
      var target := Reconcile(store, request, env).execution.value.target;
      IsDue(target, env.selectTime) && IsAsStored(store, store[request].meta.cluster, target)
  {
    hide Reconcile, Dispatch, IsDue, PolledStage, MayDispatch, IsAsStored, IsEligible;
    ReconcileDispatches(store, request, env);
    DispatchNeeds(store, request, env);
    var cluster, admitted := store[request].meta.cluster, Admitted(store, request);
    var (ops, written, ok) := PolledStage(admitted, cluster, env);
    DispatchedIsDue(written, ops, env.status.value, env);
    var target := Reconcile(store, request, env).execution.value.target;
    var x :| x in ops && x.meta == target.meta && x.spec == target.spec;
    PolledStageSpec(admitted, cluster, env);
    AsStoredBefore(store, request, target);
  }

  /** The target belongs to a pending operation of the cluster as it is stored, the finalizer aside. */
  predicate IsAsStored(store: Store, cluster: string, target: Operation) {
    && target.meta.name in store
    && var op := store[target.meta.name];
    && op.IsValid() && !op.IsDone() && op.spec == target.spec && op.meta.cluster == cluster
    && target.meta == op.meta.(finalizer := target.meta.finalizer)
  }

  lemma DispatchNeeds(store: Store, request: string, env: Environment)
    requires IsListing(env.listing, store)
    ensures MayDispatch(store, request, env) ==>
      && request in store && env.status.Some? && env.userTasks.Some?
      && IsListing(env.listing, Admitted(store, request))
  {
  }

  lemma AsStoredBefore(store: Store, request: string, target: Operation)
    requires request in store && target.meta.name in store
    requires
      var cluster, op := store[request].meta.cluster, Admitted(store, request)[target.meta.name];
      IsEligible(op, cluster) && target.meta == op.meta && target.spec == op.spec
    ensures IsAsStored(store, store[request].meta.cluster, target)
  {
  }

  lemma PolledStageSpec(store: Store, cluster: string, env: Environment)
    requires IsListing(env.listing, store) && env.userTasks.Some?
    ensures
      var (ops, written, ok) := PolledStage(store, cluster, env);
      && written.Keys == store.Keys
      && (forall n :: n in store && !IsEligible(store[n], cluster) ==> written[n] == store[n])
      && (forall n :: n in store ==> written[n].meta == store[n].meta && written[n].spec == store[n].spec)
      && (ok ==> forall x :: x in ops ==>
        && x.meta.name in store && IsEligible(store[x.meta.name], cluster)
        && x.meta == store[x.meta.name].meta && x.spec == store[x.meta.name].spec)
  {
    hide Eligible, RefreshAll, WriteChanged, IsEligible, Refreshed;
    var results := ByTaskID(env.userTasks.value);
    RefreshStageSpec(store, env.listing, cluster, results, env.refreshTime, env.refreshWrites);
    forall n | n in store
      ensures
        var p := Polled(store[n], cluster, results, env.refreshTime);
        p == store[n].(status := p.status)
    {
      RefreshedFrame(store[n], results, env.refreshTime);
    }
  }

  /** A reconcile that gets as far as the choice, and whose choice is that p gives way to x. */
  ghost predicate ChoosesToGiveWay(store: Store, request: string, env: Environment, p: Operation, x: Operation)
    requires forall n :: n in env.listing ==> n in store
  {
    && MayDispatch(store, request, env)
    && var (ops, written, ok) := PolledStage(Admitted(store, request), store[request].meta.cluster, env);
    && ok && request in written
    && !(written[request].IsFinalizerNeeded() && !written[request].IsCurrentTaskRunning())
    && GivesWayTo(ops, p, x)
  }

  /** A removal of disks that has failed is paused afterwards, and was not before. */
  predicate IsPutOff(before: Store, after: Store, n: string) {
    && n in before && n in after && !before[n].meta.paused && after[n].meta.paused
    && after[n].IsDone() && Classify(after[n]).None?
    && after[n].CurrentTaskState() == CompletedWithError && after[n].CurrentTaskKind() == RemoveDisks
  }

  /** In a reconcile of a reachable state, the stored removal of disks that gives way becomes paused and done. */
  lemma ReconcileGivesWay(w: World, request: string, env: Environment, p: Operation, x: Operation)
    requires Inv(w) && Allowed(w, Reconciled(request, env)) && ChoosesToGiveWay(w.ops, request, env, p, x)
    requires env.pauseWrite.TakesEffect()
    ensures IsPutOff(w.ops, Apply(w, Reconciled(request, env)).ops, p.meta.name)
  {
    hide Inv, Reconcile, Dispatch, Mirrors, Reports, IsAnswer, PolledStage, IsHead, LeadsRebalances, Classify,
         IsPutOff, IsEligible;
    var cluster, admitted := w.ops[request].meta.cluster, Admitted(w.ops, request);
    ReconcileDispatches(w.ops, request, env);
    StageMirrors(w, request, env);
    PolledStageSpec(admitted, cluster, env);
    var (ops, written, ok) := PolledStage(admitted, cluster, env);
    GivingWayPauses(written, cluster, ops, env.status.value, env, p, x);
    HeadWasNotPaused(ops, p);
    ShowsPutOff(w.ops, written, Dispatch(written, ops, env.status.value, env), p, x);
  }

  lemma ShowsPutOff(store: Store, written: Store, out: Outcome, p: Operation, x: Operation)
    requires PausesFor(written, out, p, x) && p.meta.name in store && !p.meta.paused
    requires store[p.meta.name].meta.paused == p.meta.paused
    requires p.CurrentTaskState() == CompletedWithError && p.CurrentTaskKind() == RemoveDisks
    ensures IsPutOff(store, out.store, p.meta.name)
  {
  }

  lemma StageMirrors(w: World, request: string, env: Environment)
    requires Inv(w) && Allowed(w, Reconciled(request, env)) && MayDispatch(w.ops, request, env)
    ensures IsListing(env.listing, Admitted(w.ops, request))
    ensures
      var cluster := w.ops[request].meta.cluster;
      var (ops, written, ok) := PolledStage(Admitted(w.ops, request), cluster, env);
      ok ==> Mirrors(ops, written, cluster)
  {
    hide Inv, Mirrors, Reports, IsAnswer, Eligible, RefreshAll, WriteChanged;
    var cluster, admitted := w.ops[request].meta.cluster, Admitted(w.ops, request);
    AdmissionKeeps(w, request, env.listing);
    assert admitted == WithFinalizer(w.ops, request) || admitted == w.ops;
    PolledMirrors(w.(ops := admitted), env.listing, cluster, ByTaskID(env.userTasks.value), env.refreshTime,
                  env.refreshWrites);
  }

  lemma HeadWasNotPaused(ops: seq<Operation>, p: Operation)
    requires IsHead(ops, ForRetry, p)
    ensures p in ops && !p.meta.paused && p.CurrentTaskState() == CompletedWithError
  {
  }

  // ---------------------------------------------------------------------------
  // What is done is left alone

  lemma DispatchLeaves(store: Store, ops: seq<Operation>, status: CruiseControlStatus, env: Environment, name: string)
    requires (forall x :: x in ops ==> x.status.currentTask.Some? && x.meta.name != name) && name in store
    ensures
      var out := Dispatch(store, ops, status, env);
      && name in out.store && out.store[name] == store[name]
      && (out.execution.Some? ==> out.execution.value.target.meta.name != name)
  {
    hide Choose, QueueOf, UpdateResult, Classify;
    ChoiceIsSound(ops, env.selectTime);
    match Choose(ops, env.selectTime)
    case Nothing =>
    case Run(target) => ResultMeta(target, env.execution, env.recordTime);
    case PauseThenRun(p, target) => ResultMeta(target, env.execution, env.recordTime);
  }

  /** A reconcile sends nothing for an operation that is done, and changes nothing of it but its finalizer. */
  lemma DoneIsLeft(store: Store, request: string, env: Environment, name: string)
    requires IsListing(env.listing, store) && name in store && store[name].IsDone()
    ensures
      var out := Reconcile(store, request, env);
      && (name in out.store ==>
            out.store[name] == store[name].(meta := store[name].meta.(finalizer := out.store[name].meta.finalizer)))
      && (out.execution.Some? ==> out.execution.value.target.meta.name != name)
  {
    hide Reconcile, Eligible, RefreshAll, WriteChanged, Dispatch, ByTaskID, PolledStage;
    if MayDispatch(store, request, env) {
      var cluster, admitted := store[request].meta.cluster, Admitted(store, request);
      ReconcileDispatches(store, request, env);
      PolledStageSpec(admitted, cluster, env);
      var (ops, written, ok) := PolledStage(admitted, cluster, env);
      if ok {
        DispatchLeaves(written, ops, env.status.value, env, name);
      }
    } else {
      NotDispatched(store, request, env, name);
    }
  }

  /** Without dispatching a reconcile changes at most the finalizer of an operation. */
  lemma NotDispatched(store: Store, request: string, env: Environment, name: string)
    requires (forall n :: n in env.listing ==> n in store) && name in store && !MayDispatch(store, request, env)
    ensures
      var out := Reconcile(store, request, env);
      && out.execution.None?
      && (name in out.store ==>
        out.store[name] == store[name].(meta := store[name].meta.(finalizer := out.store[name].meta.finalizer)))
  {
    hide Eligible, RefreshAll, WriteChanged, Dispatch, ByTaskID;
    ReconcileDispatches(store, request, env);
  }

  /** The operation has failed and is paused. */
  predicate IsHeldBack(op: Operation) {
    op.meta.paused && op.CurrentTaskState() == CompletedWithError
  }

  lemma HeldBackStays(w: World, e: Event, name: string)
    requires Allowed(w, e) && name in w.ops && w.ops[name].meta.name == name && IsHeldBack(w.ops[name])
    ensures
      var after := Apply(w, e).ops;
      e != SetPaused(name, false) && name in after ==>
        IsHeldBack(after[name]) && after[name].status == w.ops[name].status && after[name].meta.name == name
    ensures SentBy(w, e).Some? ==> SentBy(w, e).value.target.meta.name != name
  {
    hide Reconcile, Reports, IsAnswer;
    if e.Reconciled? {
      DoneIsLeft(w.ops, e.request, e.env, name);
    }
  }

  lemma HeldBackIsUnqueued()
    ensures forall op :: IsHeldBack(op) ==> Classify(op).None?
  {
  }

  /** The operation is stored and nobody takes its pause away from the j-th to the k-th state of the run. */
  ghost predicate NotResumed(w: World, events: seq<Event>, name: string, j: nat, k: nat)
    requires IsRun(w, events) && j <= k <= |events|
  {
    forall i :: j <= i < k ==>
      events[i] != SetPaused(name, false) && IsRun(w, events[..i + 1]) && name in Play(w, events[..i + 1]).ops
  }

  lemma NotResumedBefore(w: World, events: seq<Event>, name: string, j: nat, k: nat)
    requires IsRun(w, events) && j < k <= |events| && NotResumed(w, events, name, j, k)
    ensures NotResumed(w, events, name, j, k - 1)
    ensures events[k - 1] != SetPaused(name, false) && IsRun(w, events[..k]) && name in Play(w, events[..k]).ops
  {
    hide IsRun, Play;
    assert events[..k - 1 + 1] == events[..k];
  }

  /**
   Once an operation that has failed is paused, as a removal of disks is when it
   gives way, it is in no queue and nothing is sent for it until a user resumes
   it: its record stays as it is.
   */
  lemma {:induction false} PausedUntilResumed(w: World, events: seq<Event>, name: string, j: nat, k: nat)
    requires IsRun(w, events) && j <= k <= |events| && NotResumed(w, events, name, j, k)
    requires IsRun(w, events[..j]) && name in Play(w, events[..j]).ops
    requires
      var op := Play(w, events[..j]).ops[name];
      op.meta.name == name && IsHeldBack(op)
    ensures IsRun(w, events[..k]) && name in Play(w, events[..k]).ops
    ensures
      var before, op := Play(w, events[..j]).ops[name], Play(w, events[..k]).ops[name];
      op.meta.name == name && IsHeldBack(op) && op.status == before.status && Classify(op).None?
    ensures k < |events| ==>
      && Allowed(Play(w, events[..k]), events[k])
      && (SentBy(Play(w, events[..k]), events[k]).Some? ==>
        SentBy(Play(w, events[..k]), events[k]).value.target.meta.name != name)
    decreases k
  {
    hide Apply, Reports, IsAnswer, SentBy, Reconcile, Allowed, IsHeldBack, Classify, NotResumed, IsRun, Play;
    RunPrefix(w, events, k);
    HeldBackIsUnqueued();
    if j < k {
      NotResumedBefore(w, events, name, j, k);
      PausedUntilResumed(w, events, name, j, k - 1);
      RunPrefix(w, events, k - 1);
      HeldBackStays(Play(w, events[..k - 1]), events[k - 1], name);
    }
    if k < |events| {
      HeldBackStays(Play(w, events[..k]), events[k], name);
    }
  }

  // ---------------------------------------------------------------------------
  // The finalizer

  lemma DispatchKeepsFinalizers(store: Store, ops: seq<Operation>, status: CruiseControlStatus, env: Environment,
                                name: string)
    requires (forall x :: x in ops ==> x.status.currentTask.Some?) && name in store
    ensures
      var after := Dispatch(store, ops, status, env).store;
      name in after && after[name].meta.finalizer == store[name].meta.finalizer
  {
    hide Choose, QueueOf, UpdateResult, Classify;
    ChoiceIsSound(ops, env.selectTime);
  }

  /**
   An operation gets its finalizer exactly in its own reconcile, if it is
   supported, names a Kafka cluster that is there, is not being deleted, and the
   update takes effect, whatever comes after that.
   */
  lemma FinalizerIsAddedExactlyWhen(store: Store, request: string, env: Environment, name: string)
    requires IsListing(env.listing, store) && name in store && !store[name].meta.finalizer
    ensures
      var after := Reconcile(store, request, env).store;
      name in after && after[name].meta.finalizer <==>
        && name == request && IsSupported(store[name].CurrentTaskKind()) && store[name].meta.cluster != ""
        && env.cluster == ClusterFound && !store[name].meta.deleting && env.metaWrite.TakesEffect()
  {
    if MayDispatch(store, request, env) {
      hide Reconcile, Eligible, RefreshAll, WriteChanged, Dispatch, ByTaskID, PolledStage;
      var cluster, admitted := store[request].meta.cluster, Admitted(store, request);
      ReconcileDispatches(store, request, env);
      PolledStageSpec(admitted, cluster, env);
      var (ops, written, ok) := PolledStage(admitted, cluster, env);
      DispatchKeepsFinalizers(written, ops, env.status.value, env, name);
    } else {
      NoDispatchFinalizer(store, request, env, name);
    }
  }

  lemma NoDispatchFinalizer(store: Store, request: string, env: Environment, name: string)
    requires (forall n :: n in env.listing ==> n in store) && name in store && !store[name].meta.finalizer
    requires !MayDispatch(store, request, env)
    ensures
      var after := Reconcile(store, request, env).store;
      name in after && after[name].meta.finalizer <==>
        && name == request && IsSupported(store[name].CurrentTaskKind()) && store[name].meta.cluster != ""
        && env.cluster == ClusterFound && !store[name].meta.deleting && env.metaWrite.TakesEffect()
  {
    hide Eligible, RefreshAll, WriteChanged, Dispatch, ByTaskID;
  }
}
