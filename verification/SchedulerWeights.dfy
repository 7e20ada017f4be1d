/**
 What is left to do for the operations of a cluster, and how a cooperative
 reconcile of a quiet cluster makes it less.
 */
module SchedulerWeights {
  import opened Wrappers
  import opened ApiServer
  import opened OperationTypes
  import opened OperationResult
  import opened OperationQueues
  import opened ReconcileStep
  import opened RefreshStage
  import opened SchedulerWorld
  import opened SchedulerInvariant
  import opened SchedulerSafety

  /** No supported operation of the cluster is being deleted. */
  ghost predicate Quiet(ops: Store, cluster: string) {
    forall n :: n in ops && ops[n].meta.cluster == cluster && ops[n].IsValid() ==> !ops[n].meta.deleting
  }

  /** What was started has completed. */
  ghost predicate AllComplete(ops: Store, cc: CruiseControl, cluster: string) {
    forall n :: n in ops && IsEligible(ops[n], cluster) && IsRunningState(ops[n].CurrentTaskState()) ==>
      var ref := TaskRef(cluster, ops[n].CurrentTaskID());
      ref in cc && cc[ref] == Known(Completed)
  }

  /** The task runs, or is done already. */
  predicate IsStarted(state: TaskState) {
    IsRunningState(state) || state == Completed
  }

  /** The environment neither refuses, fails nor drops anything, and Cruise Control is idle. */
  ghost predicate Cooperates(env: Environment) {
    && env.cluster == ClusterFound && env.metaWrite == Handled && env.scaler
    && env.status == Some(CruiseControlStatus(true, false))
    && env.userTasks.Some? && env.refreshWrites.count >= |env.listing|
    && env.pauseWrite == Handled && env.resultWrite == Handled
    && env.execution.Some? && env.execution.value.startedAt.Some? && IsStarted(env.execution.value.state)
  }

  // ---------------------------------------------------------------------------
  // The measure

  /** What is left to do for one operation of the cluster. */
  function Weight(op: Operation, cluster: string): nat {
    if !IsEligible(op, cluster) then 0
    else if IsRunningState(op.CurrentTaskState()) then 1
    else if op.CurrentTaskState() == CompletedWithError && op.CurrentTaskFinished().None? then 3
    else 2
  }

  /** What is left to do for the named operations that are stored. */
  function Measure(ops: Store, names: seq<string>, cluster: string): nat {
    if names == [] then 0
    else
      var last := names[|names| - 1];
      (if last in ops then Weight(ops[last], cluster) else 0) + Measure(ops, names[..|names| - 1], cluster)
  }

  /** The names include those of all operations of the cluster. */
  ghost predicate Covers(names: seq<string>, ops: Store, cluster: string) {
    forall n :: n in ops && ops[n].meta.cluster == cluster ==> n in names
  }

  ghost predicate Lighter(ops: Store, ops': Store, cluster: string) {
    && ops'.Keys == ops.Keys
    && forall n :: n in ops ==>
         && Weight(ops'[n], cluster) <= Weight(ops[n], cluster)
         && ops'[n].meta.cluster == ops[n].meta.cluster && ops'[n].meta.deleting == ops[n].meta.deleting
         && (ops'[n].IsValid() ==> ops[n].IsValid())
  }

  lemma {:induction false} MeasureFalls(ops: Store, ops': Store, names: seq<string>, cluster: string)
    requires Lighter(ops, ops', cluster)
    ensures Measure(ops', names, cluster) <= Measure(ops, names, cluster)
    ensures (exists n :: n in names && n in ops && Weight(ops'[n], cluster) < Weight(ops[n], cluster)) ==>
      Measure(ops', names, cluster) < Measure(ops, names, cluster)
  {
    if names != [] {
      MeasureFalls(ops, ops', names[..|names| - 1], cluster);
      assert names == names[..|names| - 1] + [names[|names| - 1]];
    }
  }

  lemma {:induction false} ZeroMeansDone(ops: Store, names: seq<string>, cluster: string)
    ensures Measure(ops, names, cluster) == 0 <==> forall n :: n in names && n in ops ==> Weight(ops[n], cluster) == 0
  {
    if names != [] {
      ZeroMeansDone(ops, names[..|names| - 1], cluster);
      assert names == names[..|names| - 1] + [names[|names| - 1]];
    }
  }

  lemma {:induction false} MeasureBound(ops: Store, names: seq<string>, cluster: string)
    ensures Measure(ops, names, cluster) <= 3 * |names|
  {
    if names != [] {
      MeasureBound(ops, names[..|names| - 1], cluster);
    }
  }

  // ---------------------------------------------------------------------------
  // One round

  /** Polling makes nothing heavier, ends what was running and stamps what had failed. */
  lemma PolledWeight(op: Operation, cluster: string, results: map<string, TaskResult>, cc: CruiseControl,
                     clock: int, now: int, attempts: seq<Task>, runs: seq<Timing>)
    requires RecordOk(op, cc, clock, attempts, runs) && HasStates(cc)
    requires IsEligible(op, cluster) ==> ReportsTask(results, cc, cluster, op.CurrentTaskID())
    requires IsEligible(op, cluster) && IsRunningState(op.CurrentTaskState()) ==>
      cc[TaskRef(cluster, op.CurrentTaskID())] == Known(Completed)
    ensures
      var op' := Polled(op, cluster, results, now);
      && Weight(op', cluster) <= Weight(op, cluster)
      && Weight(op', cluster) in {0, 2}
      && (Weight(op', cluster) == 2 ==>
            || (op' == op && op.IsWaitingForFirstExecution())
            || (op'.IsWaitingForRetryExecution() && op'.CurrentTaskFinished().Some? &&
                (Weight(op, cluster) == 2 ==> op'.CurrentTaskFinished() == op.CurrentTaskFinished())))
  {
  }

  /** Sending an operation that is not running makes it lighter. */
  lemma ExecutedWeight(target: Operation, res: TaskResult, now: int, cluster: string)
    requires target.IsValid() && Weight(target, cluster) == 2 && IsStarted(res.state) && res.startedAt.Some?
    ensures Weight(UpdateResult(target, Some(res), true, now).0, cluster) < Weight(target, cluster)
  {
  }

  lemma ExecuteLightens(store: Store, target: Operation, env: Environment, cluster: string)
    requires target.meta.name in store && store[target.meta.name] == target
    requires target.IsValid() && Weight(target, cluster) == 2
    requires Cooperates(env)
    ensures var ops' := Execute(store, target, env).store;
      Lighter(store, ops', cluster) &&
        Weight(ops'[target.meta.name], cluster) < Weight(store[target.meta.name], cluster)
  {
    ExecutedWeight(target, env.execution.value, env.recordTime, cluster);
    var (updated, parsed) := UpdateResult(target, env.execution, true, env.recordTime);
    assert parsed && updated.meta == target.meta && updated.spec == target.spec;
    hide UpdateResult, Weight;
    assert Execute(store, target, env).store == store[target.meta.name := updated];
  }

  /** Nothing in the cluster runs or is being finalized. */
  ghost predicate AtRest(ops: seq<Operation>, cluster: string) {
    forall x :: x in ops && IsEligible(x, cluster) ==>
      Weight(x, cluster) == 2 && (Classify(x) == Some(First) || Classify(x) == Some(ForRetry))
  }

  ghost predicate AllReady(ops: seq<Operation>, now: int) {
    forall x :: x in ops && Classify(x) == Some(ForRetry) ==> x.IsReadyForRetryExecution(now)
  }

  lemma RestIsUnblocked(ops: seq<Operation>, cluster: string, target: Operation)
    requires AtRest(ops, cluster)
    requires forall x :: x in ops && Classify(x).Some? ==> IsEligible(x, cluster)
    ensures !Blocked(ops, target, CruiseControlStatus(true, false))
  {
    HeadSpec(ops, InProgress);
  }

  lemma ClassifiedAreEligible(ops: seq<Operation>, store: Store, cluster: string)
    requires Mirrors(ops, store, cluster)
    ensures forall x :: x in ops && Classify(x).Some? ==> IsEligible(x, cluster)
  {
  }

  /** At rest, dispatching makes nothing heavier, and something lighter when everything pending is ready. */
  lemma DispatchLightens(store: Store, ops: seq<Operation>, env: Environment, cluster: string)
    requires Mirrors(ops, store, cluster) && AtRest(ops, cluster) && Cooperates(env)
    requires forall x :: x in ops ==> x.status.currentTask.Some?
    ensures var ops' := Dispatch(store, ops, CruiseControlStatus(true, false), env).store;
      && Lighter(store, ops', cluster)
      && (AllReady(ops, env.selectTime) && (exists x :: x in ops && IsEligible(x, cluster)) ==>
            exists n :: n in store && Weight(ops'[n], cluster) < Weight(store[n], cluster))
  {
    ChoiceIsSound(ops, env.selectTime);
    ClassifiedAreEligible(ops, store, cluster);
    assert IsEmpty(ops, ForStop);
    match Choose(ops, env.selectTime)
    case Nothing =>
      if AllReady(ops, env.selectTime) {
        NothingMeansWaiting(ops, env.selectTime, cluster);
      }
    case Run(target) =>
      RestIsUnblocked(ops, cluster, target);
      ExecuteLightens(store, target, env, cluster);
    case PauseThenRun(p, target) =>
      RestIsUnblocked(ops, cluster, target);
      PauseLightens(store, p, target, env, cluster);
  }

  lemma PauseIsLighter(store: Store, p: Operation, cluster: string)
    requires p.meta.name in store && store[p.meta.name] == p && Classify(p) == Some(ForRetry)
    ensures Lighter(store, store[p.meta.name := Paused(p)], cluster)
  {
    assert Weight(Paused(p), cluster) == 0;
  }

  lemma LighterTransitive(a: Store, b: Store, c: Store, cluster: string)
    requires Lighter(a, b, cluster) && Lighter(b, c, cluster)
    ensures Lighter(a, c, cluster)
  {
    hide Weight;
  }

  lemma PauseLightens(store: Store, p: Operation, target: Operation, env: Environment, cluster: string)
    requires p.meta.name in store && store[p.meta.name] == p && Classify(p) == Some(ForRetry)
    requires target.meta.name in store && store[target.meta.name] == target && Classify(target) == Some(First)
    requires target.IsValid() && Weight(target, cluster) == 2 && Cooperates(env)
    ensures
      var ops' := Execute(store[p.meta.name := Paused(store[p.meta.name])], target, env).store;
      Lighter(store, ops', cluster) &&
        Weight(ops'[target.meta.name], cluster) < Weight(store[target.meta.name], cluster)
  {
    var mid := store[p.meta.name := Paused(p)];
    assert p != target;
    assert mid[target.meta.name] == target;
    hide *;
    PauseIsLighter(store, p, cluster);
    ExecuteLightens(mid, target, env, cluster);
    LighterTransitive(store, mid, Execute(mid, target, env).store, cluster);
  }

  lemma NothingMeansWaiting(ops: seq<Operation>, now: int, cluster: string)
    requires forall x :: x in ops ==> x.status.currentTask.Some?
    requires AtRest(ops, cluster) && IsEmpty(ops, ForStop) && AllReady(ops, now)
    requires Choose(ops, now) == Nothing
    ensures forall x :: x in ops ==> !IsEligible(x, cluster)
  {
    if Has(ops, First, AddBroker) {
      AddBrokerSecond(ops, now);
    } else {
      RetryThenFresh(ops, now);
      HeadSpec(ops, ForRetry);
    }
  }

  lemma {:induction false} EnoughWrites(store: Store, before: seq<Operation>, after: seq<Operation>, budget: Writes)
    requires |before| == |after| <= budget.count
    ensures WriteChanged(store, before, after, budget).1
    decreases |before|
  {
    if before != [] {
      if before[0].status == after[0].status {
        EnoughWrites(store, before[1..], after[1..], budget);
      } else {
        EnoughWrites(WriteStatus(store, after[0]), before[1..], after[1..], budget.(count := budget.count - 1));
      }
    }
  }

  lemma {:induction false} EligibleCount(store: Store, listing: seq<string>, cluster: string)
    requires forall n :: n in listing ==> n in store
    ensures |Eligible(store, listing, cluster)| <= |listing|
  {
    if listing != [] {
      EligibleCount(store, listing[..|listing| - 1], cluster);
    }
  }

  /** The polled operations once Cruise Control has completed everything. */
  ghost predicate IsPolledAtRest(w: World, ops: seq<Operation>, written: Store, cluster: string) {
    && Mirrors(ops, written, cluster) && AtRest(ops, cluster)
    && Lighter(w.ops, written, cluster)
    && forall x :: x in ops && Classify(x) == Some(ForRetry) && Weight(w.ops[x.meta.name], cluster) == 2 ==>
         x.CurrentTaskFinished().Some? && x.CurrentTaskFinished().value <= w.clock
  }

  lemma PolledIsAtRest(w: World, listing: seq<string>, cluster: string, results: map<string, TaskResult>, now: int,
                       budget: Writes)
    requires Inv(w) && Quiet(w.ops, cluster) && AllComplete(w.ops, w.cc, cluster)
    requires IsListing(listing, w.ops) && Reports(results, w.cc, cluster, w.ops)
    requires w.clock <= now && |listing| <= budget.count
    ensures
      var before := Eligible(w.ops, listing, cluster);
      var after := RefreshAll(before, results, now);
      var (written, ok) := WriteChanged(w.ops, before, after, budget);
      ok && IsPolledAtRest(w, after, written, cluster) && forall n :: n in w.ops ==> written[n].meta == w.ops[n].meta
  {
    var before := Eligible(w.ops, listing, cluster);
    var after := RefreshAll(before, results, now);
    EligibleCount(w.ops, listing, cluster);
    EnoughWrites(w.ops, before, after, budget);
    var (written, ok) := WriteChanged(w.ops, before, after, budget);
    PolledMirrors(w, listing, cluster, results, now, budget);
    RefreshStageSpec(w.ops, listing, cluster, results, now, budget);
    forall n | n in w.ops ensures RestsAs(w.ops[n], written[n], cluster, w.clock) {
      RestOfOne(w, cluster, results, now, n);
    }
    hide *;
    RestOfAll(w, after, written, cluster);
  }

  lemma RestOfAll(w: World, ops: seq<Operation>, written: Store, cluster: string)
    requires written.Keys == w.ops.Keys && Mirrors(ops, written, cluster)
    requires forall n :: n in w.ops ==> RestsAs(w.ops[n], written[n], cluster, w.clock)
    ensures IsPolledAtRest(w, ops, written, cluster) && forall n :: n in w.ops ==> written[n].meta == w.ops[n].meta
  {
    hide Weight, Classify, IsEligible;
    assert forall x :: x in ops ==> written[x.meta.name] == x;
  }

  /** How one operation comes out of polling. */
  ghost predicate RestsAs(op: Operation, op': Operation, cluster: string, clock: int) {
    && op'.meta == op.meta && (op'.IsValid() ==> op.IsValid())
    && Weight(op', cluster) <= Weight(op, cluster)
    && (IsEligible(op', cluster) ==>
          Weight(op', cluster) == 2 && (Classify(op') == Some(First) || Classify(op') == Some(ForRetry)))
    && (Classify(op') == Some(ForRetry) && Weight(op, cluster) == 2 ==>
          op'.CurrentTaskFinished().Some? && op'.CurrentTaskFinished().value <= clock)
  }

  lemma RestOfOne(w: World, cluster: string, results: map<string, TaskResult>, now: int, n: string)
    requires Inv(w) && Quiet(w.ops, cluster) && AllComplete(w.ops, w.cc, cluster)
    requires Reports(results, w.cc, cluster, w.ops) && w.clock <= now && n in w.ops
    ensures RestsAs(w.ops[n], Polled(w.ops[n], cluster, results, now), cluster, w.clock)
  {
    PolledWeight(w.ops[n], cluster, results, w.cc, w.clock, now, Of(w.attempts, n), Of(w.runs, n));
    PolledKeeps(w.ops[n], cluster, results, w.cc, w.clock, now, Of(w.attempts, n), Of(w.runs, n));
  }

  /** With nothing refused or being deleted, scheduling polls and then dispatches. */
  lemma ScheduleIsDispatch(store: Store, request: string, env: Environment, after: seq<Operation>, written: Store)
    requires request in store && Cooperates(env) && forall n :: n in env.listing ==> n in store
    requires after == RefreshAll(Eligible(store, env.listing, store[request].meta.cluster),
                                 ByTaskID(env.userTasks.value), env.refreshTime)
    requires WriteChanged(store, Eligible(store, env.listing, store[request].meta.cluster), after, env.refreshWrites) ==
      (written, true)
    requires request in written && !written[request].meta.deleting
    ensures forall x :: x in after ==> x.status.currentTask.Some?
    ensures Schedule(store, request, CruiseControlStatus(true, false), env) ==
      Dispatch(written, after, CruiseControlStatus(true, false), env)
  {
    EligibleHaveTasks(store, env.listing, store[request].meta.cluster);
    hide WriteChanged, Dispatch, Eligible;
  }

  /** Scheduling makes the cluster lighter as long as something is pending. */
  lemma ScheduleLightens(w: World, request: string, env: Environment, cluster: string)
    requires Inv(w) && request in w.ops && IsListing(env.listing, w.ops) && w.ops[request].meta.cluster == cluster
    requires w.ops[request].IsValid() && Quiet(w.ops, cluster) && AllComplete(w.ops, w.cc, cluster)
    requires Cooperates(env) && Reports(ByTaskID(env.userTasks.value), w.cc, cluster, w.ops)
    requires w.clock + RETRY_BACKOFF < env.refreshTime <= env.selectTime
    ensures
      var ops' := Schedule(w.ops, request, CruiseControlStatus(true, false), env).store;
      && Lighter(w.ops, ops', cluster)
      && ((exists n :: n in w.ops && Weight(w.ops[n], cluster) > 0) ==>
            exists n :: n in w.ops && Weight(ops'[n], cluster) < Weight(w.ops[n], cluster))
  {
    var results := ByTaskID(env.userTasks.value);
    var before := Eligible(w.ops, env.listing, cluster);
    var after := RefreshAll(before, results, env.refreshTime);
    var written := WriteChanged(w.ops, before, after, env.refreshWrites).0;
    PolledIsAtRest(w, env.listing, cluster, results, env.refreshTime, env.refreshWrites);
    assert !w.ops[request].meta.deleting;
    ScheduleIsDispatch(w.ops, request, env, after, written);
    hide *;
    DispatchAfterPolling(w, after, written, env, cluster);
  }

  lemma DispatchAfterPolling(w: World, ops: seq<Operation>, written: Store, env: Environment, cluster: string)
    requires IsPolledAtRest(w, ops, written, cluster) && Cooperates(env) && w.clock + RETRY_BACKOFF < env.selectTime
    requires forall x :: x in ops ==> x.status.currentTask.Some?
    ensures
      var ops' := Dispatch(written, ops, CruiseControlStatus(true, false), env).store;
      && Lighter(w.ops, ops', cluster)
      && ((exists n :: n in w.ops && Weight(w.ops[n], cluster) > 0) ==>
            exists n :: n in w.ops && Weight(ops'[n], cluster) < Weight(w.ops[n], cluster))
  {
    var ops' := Dispatch(written, ops, CruiseControlStatus(true, false), env).store;
    assert Mirrors(ops, written, cluster) && AtRest(ops, cluster);
    hide *;
    DispatchLightens(written, ops, env, cluster);
    LightenedByPollOrDispatch(w, ops, written, ops', env.selectTime, cluster);
  }

  lemma WeightMeansEligible(op: Operation, cluster: string)
    ensures Weight(op, cluster) > 0 <==> IsEligible(op, cluster)
  {
  }

  lemma AllReadyUnlessLightened(w: World, ops: seq<Operation>, written: Store, now: int, cluster: string)
    requires IsPolledAtRest(w, ops, written, cluster) && w.clock + RETRY_BACKOFF < now
    requires forall n :: n in w.ops ==> Weight(written[n], cluster) == Weight(w.ops[n], cluster)
    ensures AllReady(ops, now)
  {
    ClassifiedAreEligible(ops, written, cluster);
    forall x | x in ops && Classify(x) == Some(ForRetry) ensures x.IsReadyForRetryExecution(now) {
      assert IsEligible(x, cluster);
      assert Weight(x, cluster) == 2;
      assert written[x.meta.name] == x;
    }
  }

  lemma LightenedByPollOrDispatch(w: World, ops: seq<Operation>, written: Store, ops': Store, now: int, cluster: string)
    requires IsPolledAtRest(w, ops, written, cluster) && w.clock + RETRY_BACKOFF < now
    requires Lighter(written, ops', cluster)
    requires AllReady(ops, now) && (exists x :: x in ops && IsEligible(x, cluster)) ==>
      exists n :: n in written && Weight(ops'[n], cluster) < Weight(written[n], cluster)
    ensures Lighter(w.ops, ops', cluster)
    ensures (exists n :: n in w.ops && Weight(w.ops[n], cluster) > 0) ==>
      exists n :: n in w.ops && Weight(ops'[n], cluster) < Weight(w.ops[n], cluster)
  {
    hide Weight, AllReady, AtRest, IsEligible, Classify;
    if n :| n in w.ops && Weight(w.ops[n], cluster) > 0 {
      if m :| m in w.ops && Weight(written[m], cluster) < Weight(w.ops[m], cluster) {
        assert Weight(ops'[m], cluster) < Weight(w.ops[m], cluster);
      } else {
        assert Weight(written[n], cluster) == Weight(w.ops[n], cluster);
        WeightMeansEligible(written[n], cluster);
        assert written[n] in ops;
        AllReadyUnlessLightened(w, ops, written, now, cluster);
      }
    }
  }
}
