/**
 The CruiseControlOperation controller on objects: each method changes the
 in-memory operations and the stored ones step by step, and is proved equal to the
 value-level step of ReconcileStep.dfy.
 */
module OperationController {
  import opened Wrappers
  import opened ApiServer
  import opened OperationTypes
  import opened OperationQueues
  import opened OperationObjects
  import opened RefreshStage
  import OperationResult
  import Spec = ReconcileStep

  ghost predicate Distinct(ops: seq<OperationRef>) {
    forall i, j :: 0 <= i < j < |ops| ==> ops[i] != ops[j]
  }

  /** The listed objects are copies of the stored operations. */
  ghost predicate AreCopies(items: seq<OperationRef>, listing: seq<string>, store: Spec.Store)
    reads items
  {
    |items| == |listing| && forall i :: 0 <= i < |items| ==> listing[i] in store && items[i].View() == store[listing[i]]
  }

  method IndexByTaskID(tasks: seq<TaskResult>) returns (results: map<string, TaskResult>)
    ensures results == OperationResult.ByTaskID(tasks)
  {
    results := map[];
    for i := 0 to |tasks|
      invariant results == OperationResult.ByTaskID(tasks[..i])
    {
      assert tasks[..i + 1][..i] == tasks[..i];
      results := results[tasks[i].taskId := tasks[i]];
    }
    assert tasks[..|tasks|] == tasks;
  }

  method FindRebalance(first: seq<OperationRef>) returns (r: OperationRef?)
    ensures r == null <==> FirstRebalance(Views(first)).None?
    ensures r != null ==> r in first && FirstRebalance(Views(first)) == Some(r.View())
  {
    ViewsSpec(first);
    ghost var vs := Views(first);
    assert vs[0..] == vs;
    for i := 0 to |first|
      invariant FirstRebalance(vs) == FirstRebalance(vs[i..])
    {
      if first[i].View().CurrentTaskKind() == Rebalance {
        return first[i];
      }
      assert vs[i..][1..] == vs[i + 1..];
    }
    r := null;
  }

  function ViewOf(x: OperationRef?): Option<Operation>
    reads x
  {
    if x == null then None else Some(x.View())
  }

  /** The selected target and the stored operations are those of the choice; `failed`: its pause was not written. */
  ghost predicate Realises(choice: Choice, target: Option<Operation>, failed: bool,
                           before: Spec.Store, after: Spec.Store, pauseWrite: Delivery)
  {
    match choice
    case Nothing => target == None && !failed && after == before
    case Run(x) => target == Some(x) && !failed && after == before
    case PauseThenRun(p, x) =>
      && p.meta.name in before
      && after == Spec.WithPause(before, p.meta.name, pauseWrite)
      && failed == (pauseWrite != Handled) && target == if failed then None else Some(x)
  }

  lemma CopiesAreNamed(items: seq<OperationRef>, listing: seq<string>, store: Spec.Store, x: OperationRef)
    requires AreCopies(items, listing, store) && Spec.IsListing(listing, store) && x in items
    ensures x.meta.name in store && store[x.meta.name] == x.View()
  {
    var i :| 0 <= i < |items| && items[i] == x;
    assert store[listing[i]].meta.name == x.View().meta.name;
  }

  lemma EligibleRefs(ops: seq<OperationRef>, store: Spec.Store, listing: seq<string>, cluster: string)
    requires forall n :: n in listing ==> n in store
    requires Views(ops) == Spec.Eligible(store, listing, cluster)
    ensures forall x :: x in ops ==> x.status.currentTask.Some?
  {
    Spec.EligibleHaveTasks(store, listing, cluster);
    ViewsSpec(ops);
    forall x | x in ops ensures x.status.currentTask.Some? {
      var i :| 0 <= i < |ops| && ops[i] == x;
      assert Views(ops)[i] in Spec.Eligible(store, listing, cluster);
    }
  }

  lemma RefreshedHasTask(op: Operation, results: map<string, TaskResult>, now: int)
    requires op.status.currentTask.Some?
    ensures OperationResult.Refreshed(op, results, now).status.currentTask.Some?
    ensures OperationResult.Refreshed(op, results, now).meta == op.meta
  {
  }

  lemma PolledMeta(op: Operation, cluster: string, results: map<string, TaskResult>, now: int)
    ensures Polled(op, cluster, results, now).meta == op.meta
  {
    RefreshedFrame(op, results, now);
  }

  /** After polling, the object of every listed operation still is a copy of the stored one. */
  lemma PolledAreCopies(items: seq<OperationRef>, listing: seq<string>, before: Spec.Store, store: Spec.Store,
                        cluster: string, results: map<string, TaskResult>, now: int, budget: Spec.Writes)
    requires Spec.IsListing(listing, before) && |items| == |listing|
    requires forall i :: 0 <= i < |items| ==> items[i].View() == Polled(before[listing[i]], cluster, results, now)
    requires
      var ops := Spec.Eligible(before, listing, cluster);
      Spec.WriteChanged(before, ops, OperationResult.RefreshAll(ops, results, now), budget) == (store, true)
    ensures AreCopies(items, listing, store) && Spec.IsListing(listing, store)
    ensures forall x :: x in items ==> x.meta.name in store
  {
    hide Spec.Eligible, Spec.WriteChanged, OperationResult.RefreshAll, Polled;
    forall n | n in before ensures Polled(before[n], cluster, results, now).meta == before[n].meta {
      PolledMeta(before[n], cluster, results, now);
    }
    RefreshStageSpec(before, listing, cluster, results, now, budget);
    forall i | 0 <= i < |items|
      ensures listing[i] in store && items[i].View() == store[listing[i]]
      ensures items[i].meta.name in store
    {
      assert items[i].View().meta.name == listing[i];
    }
  }

  class Reconciler {
    var store: Spec.Store

    /** Reads copies of the stored operations, in the order the API server lists them. */
    method List(listing: seq<string>) returns (items: seq<OperationRef>)
      requires forall n :: n in listing ==> n in store
      ensures AreCopies(items, listing, store) && Distinct(items)
      ensures fresh(items)
    {
      items := [];
      for i := 0 to |listing|
        invariant AreCopies(items, listing[..i], store) && Distinct(items)
        invariant fresh(items)
      {
        var item := new OperationRef(store[listing[i]]);
        items := items + [item];
      }
      assert listing[..|listing|] == listing;
    }

    /** The operations of a cluster that are supported and not done. */
    method Filter(items: seq<OperationRef>, listing: seq<string>, cluster: string) returns (ops: seq<OperationRef>)
      requires AreCopies(items, listing, store) && Distinct(items)
      ensures forall n :: n in listing ==> n in store
      ensures Views(ops) == Spec.Eligible(store, listing, cluster)
      ensures Distinct(ops) && Within(ops, items)
      ensures forall x :: x in items ==> (x in ops <==> Spec.IsEligible(x.View(), cluster))
    {
      hide Spec.IsEligible, Views;
      ops := [];
      ViewsSpec(ops);
      for i := 0 to |items|
        invariant Views(ops) == Spec.Eligible(store, listing[..i], cluster)
        invariant Distinct(ops) && Within(ops, items[..i])
        invariant forall x :: x in items[..i] && Spec.IsEligible(x.View(), cluster) ==> x in ops
        invariant forall x :: x in ops ==> Spec.IsEligible(x.View(), cluster)
      {
        assert listing[..i + 1][..i] == listing[..i];
        assert items[..i + 1] == items[..i] + [items[i]];
        if Spec.IsEligible(items[i].View(), cluster) {
          ViewsAppend(ops, items[i]);
          ops := ops + [items[i]];
        }
      }
      assert listing[..|items|] == listing && items[..|items|] == items;
    }

    /** Polls each operation that has a task. */
    method RefreshEach(ops: seq<OperationRef>, results: map<string, TaskResult>, now: int)
      requires Distinct(ops) && forall x :: x in ops ==> x.status.currentTask.Some?
      modifies ops
      ensures Views(ops) == OperationResult.RefreshAll(old(Views(ops)), results, now)
      ensures forall x :: x in ops ==> x.View() == OperationResult.Refreshed(old(x.View()), results, now)
    {
      for i := 0 to |ops|
        invariant forall j :: i <= j < |ops| ==> ops[j].View() == old(ops[j].View())
        invariant forall j :: 0 <= j < i ==>
          ops[j].View() == OperationResult.Refreshed(old(ops[j].View()), results, now)
      {
        var op := ops[i];
        assert op.status == op.View().status;
        assert old(op.View()).status.currentTask.Some?;
        if op.View().CurrentTaskID() != "" && !op.View().IsDone() {
          var _ := op.UpdateResult(OperationResult.Lookup(results, op.View().CurrentTaskID()), false, now);
        }
      }
      ViewsSpec(ops);
      OldViews(ops);
    }

    twostate lemma OldViews(ops: seq<OperationRef>)
      ensures |old(Views(ops))| == |ops|
      ensures forall i :: 0 <= i < |ops| ==> old(Views(ops))[i] == old(ops[i].View())
    {
      if ops != [] {
        OldViews(ops[..|ops| - 1]);
      }
    }

    /** Writes the operations whose status changed, until a write fails. */
    method WriteChanged(copies: seq<Operation>, ops: seq<OperationRef>, writes: Spec.Writes) returns (ok: bool)
      requires |copies| == |ops|
      modifies this
      ensures (store, ok) == Spec.WriteChanged(old(store), copies, Views(ops), writes)
    {
      ViewsSpec(ops);
      ghost var vs := Views(ops);
      var budget := writes;
      assert copies[0..] == copies && vs[0..] == vs;
      for i := 0 to |ops|
        invariant Views(ops) == vs && |vs| == |ops|
        invariant Spec.WriteChanged(old(store), copies, vs, writes) ==
          Spec.WriteChanged(store, copies[i..], vs[i..], budget)
      {
        assert copies[i..][1..] == copies[i + 1..] && vs[i..][1..] == vs[i + 1..];
        if copies[i].status != ops[i].status {
          if budget.count == 0 {
            if budget.lost {
              store := Spec.WriteStatus(store, ops[i].View());
            }
            return false;
          }
          store := Spec.WriteStatus(store, ops[i].View());
          budget := budget.(count := budget.count - 1);
        }
      }
      return true;
    }

    /** Polls Cruise Control for the given operations and writes back what changed. */
    method UpdateCurrentTasks(ops: seq<OperationRef>, env: Spec.Environment) returns (ok: bool)
      requires Distinct(ops) && forall x :: x in ops ==> x.status.currentTask.Some?
      modifies this, ops
      ensures env.userTasks.None? ==> !ok && store == old(store) && Views(ops) == old(Views(ops))
      ensures env.userTasks.Some? ==>
        var results := OperationResult.ByTaskID(env.userTasks.value);
        var after := OperationResult.RefreshAll(old(Views(ops)), results, env.refreshTime);
        && Views(ops) == after
        && (store, ok) == Spec.WriteChanged(old(store), old(Views(ops)), after, env.refreshWrites)
        && (forall x :: x in ops ==> x.View() == OperationResult.Refreshed(old(x.View()), results, env.refreshTime))
    {
      if env.userTasks.None? {
        return false;
      }
      var copies := Views(ops);
      var results := IndexByTaskID(env.userTasks.value);
      RefreshEach(ops, results, env.refreshTime);
      ok := WriteChanged(copies, ops, env.refreshWrites);
    }

    /** A failed operation, the rebalance it gives way to, or the first fresh one. */
    method SelectRetryOrFirst(first: seq<OperationRef>, retry: seq<OperationRef>, ghost vs: seq<Operation>,
                              env: Spec.Environment)
      returns (target: OperationRef?, failed: bool)
      requires Views(first) == QueueOf(vs, First) && Views(retry) == QueueOf(vs, ForRetry)
      requires forall x :: x in vs ==> x.meta.name in store
      modifies this, retry
      ensures target != null ==> target in first || target in retry
      ensures Realises(ChooseRetryOrFirst(QueueOf(vs, First), QueueOf(vs, ForRetry), env.selectTime),
                       ViewOf(target), failed, old(store), store, env.pauseWrite)
    {
      ViewsSpec(first);
      ViewsSpec(retry);
      QueueMembers(vs, First);
      QueueMembers(vs, ForRetry);
      hide Views, QueueOf, Classify;
      target, failed := null, false;
      if |retry| > 0 {
        var op := retry[0];
        assert op.View() == QueueOf(vs, ForRetry)[0] && op.View() in QueueOf(vs, ForRetry);
        if op.View().CurrentTaskKind() == RemoveDisks {
          target := FindRebalance(first);
          if target != null {
            assert target != op;
            op.meta := op.meta.(paused := true);
            if env.pauseWrite.TakesEffect() {
              store := store[op.meta.name := Spec.Paused(store[op.meta.name])];
            }
            if env.pauseWrite != Handled {
              target, failed := null, true;
            }
            return;
          }
        }
        if op.View().IsReadyForRetryExecution(env.selectTime) {
          target := op;
          return;
        }
      }
      if |first| > 0 {
        target := first[0];
      }
    }

    /** A fresh add_broker, or what SelectRetryOrFirst selects. */
    method SelectUnlessStop(first: seq<OperationRef>, retry: seq<OperationRef>, ghost vs: seq<Operation>,
                            env: Spec.Environment)
      returns (target: OperationRef?, failed: bool)
      requires Views(first) == QueueOf(vs, First) && Views(retry) == QueueOf(vs, ForRetry)
      requires forall x :: x in vs ==> x.meta.name in store
      modifies this, retry
      ensures target != null ==> target in first || target in retry
      ensures Realises(ChooseUnlessStop(QueueOf(vs, First), QueueOf(vs, ForRetry), env.selectTime),
                       ViewOf(target), failed, old(store), store, env.pauseWrite)
    {
      ViewsSpec(first);
      hide Views, QueueOf, ChooseRetryOrFirst;
      if |first| > 0 && first[0].View().CurrentTaskKind() == AddBroker {
        return first[0], false;
      }
      target, failed := SelectRetryOrFirst(first, retry, vs, env);
    }

    /**
     Picks the next operation.  A finalizing one is turned into a stop; a failed
     remove_disks that gives way to a rebalance is paused, and `failed` says that
     this could not be written.
     */
    method SelectForExecution(queues: QueueMap, ghost ops: seq<OperationRef>, env: Spec.Environment)
      returns (target: OperationRef?, failed: bool)
      requires AreQueuesOf(queues, Views(ops)) && AllWithin(queues, ops)
      requires forall x :: x in Views(ops) ==> x.status.currentTask.Some? && x.meta.name in store
      modifies this, ops
      ensures forall x :: x in old(Views(ops)) ==> x.status.currentTask.Some?
      ensures target != null ==> target in ops
      ensures Realises(Choose(old(Views(ops)), env.selectTime), ViewOf(target), failed, old(store), store,
                       env.pauseWrite)
    {
      ghost var vs := Views(ops);
      assert forall x :: x in vs ==> x.status.currentTask.Some?;
      if |queues.stop| > 0 {
        target, failed := queues.stop[0], false;
        ViewsSpec(queues.stop);
        QueueMembers(vs, ForStop);
        assert target in queues.stop;
        assert target.View() == QueueOf(vs, ForStop)[0] && target.View() in QueueOf(vs, ForStop);
        hide Views, QueueOf, Classify, ChooseUnlessStop, AllWithin;
        target.BecomeStop();
      } else {
        assert forall x :: x in queues.retry || x in queues.first ==> x in ops;
        assert forall i :: 0 <= i < |queues.retry| ==> queues.retry[i] in ops;
        assert QueueOf(vs, ForStop) == [];
        hide Views, QueueOf, Classify, ChooseUnlessStop, AllWithin, Realises;
        target, failed := SelectUnlessStop(queues.first, queues.retry, vs, env);
      }
    }

    /** Sends the target to Cruise Control and records the answer in its status. */
    method Execute(target: OperationRef, env: Spec.Environment) returns (ghost sent: Option<Spec.Execution>)
      requires target.status.currentTask.Some?
      modifies this, target
      ensures Spec.Outcome(store, sent) == Spec.Execute(old(store), old(target.View()), env)
    {
      if env.execution.None? {
        return None;
      }
      ghost var before := target.View();
      var ok := target.UpdateResult(env.execution, true, env.recordTime);
      if ok && env.resultWrite.TakesEffect() {
        store := Spec.WriteStatus(store, target.View());
      }
      sent := Some(Spec.Execution(before, env.execution.value, ok && env.resultWrite.TakesEffect()));
    }

    /** Sorts the polled operations, picks one and sends it unless Cruise Control is busy. */
    method Dispatch(ops: seq<OperationRef>, status: Spec.CruiseControlStatus, env: Spec.Environment)
      returns (ghost sent: Option<Spec.Execution>)
      requires forall x :: x in ops ==> x.status.currentTask.Some? && x.meta.name in store
      modifies this, ops
      ensures forall x :: x in old(Views(ops)) ==> x.status.currentTask.Some?
      ensures Spec.Outcome(store, sent) == Spec.Dispatch(old(store), old(Views(ops)), status, env)
    {
      ghost var vs := Views(ops);
      ViewsSpec(ops);
      assert forall x :: x in vs ==> x.status.currentTask.Some? && x.meta.name in store;
      ChoiceIsSound(vs, env.selectTime);
      sent := None;
      var queues := SortOperations(ops);
      if |queues.stop| == 0 && |queues.first| == 0 && |queues.retry| == 0 && |queues.inProgress| == 0 {
        NothingQueued(queues, vs, env.selectTime);
        return;
      }
      ViewsSpec(queues.inProgress);
      var target, failed := SelectForExecution(queues, ops, env);
      if failed || target == null {
        return;
      }
      if (status.inExecution || |queues.inProgress| > 0) && target.View().CurrentTaskKind() != StopExecution {
        return;
      }
      sent := Execute(target, env);
    }

    lemma NothingQueued(queues: QueueMap, vs: seq<Operation>, now: int)
      requires forall x :: x in vs ==> x.status.currentTask.Some?
      requires AreQueuesOf(queues, vs)
      requires queues.stop == [] && queues.first == [] && queues.retry == []
      ensures Choose(vs, now) == Nothing
    {
    }

    /** Filters the operations of a cluster and polls them; the listed objects stay copies of the stored ones. */
    method Poll(items: seq<OperationRef>, cluster: string, env: Spec.Environment)
      returns (ops: seq<OperationRef>, ok: bool)
      requires Spec.IsListing(env.listing, store)
      requires AreCopies(items, env.listing, store) && Distinct(items)
      modifies this, items
      ensures env.userTasks.None? ==> !ok && store == old(store)
      ensures env.userTasks.Some? ==>
        var before := Spec.Eligible(old(store), env.listing, cluster);
        var after := OperationResult.RefreshAll(before, OperationResult.ByTaskID(env.userTasks.value), env.refreshTime);
        Views(ops) == after && (store, ok) == Spec.WriteChanged(old(store), before, after, env.refreshWrites)
      ensures ok ==> AreCopies(items, env.listing, store) && Spec.IsListing(env.listing, store)
      ensures ok ==> forall x :: x in items ==> x.meta == old(x.meta)
      ensures ok ==> Within(ops, items) && forall x :: x in ops ==> x.status.currentTask.Some? && x.meta.name in store
    {
      hide OperationResult.Refreshed, Spec.WriteChanged, Spec.Eligible, Views;
      ghost var before := store;
      ops := Filter(items, env.listing, cluster);
      EligibleRefs(ops, store, env.listing, cluster);
      assert forall i :: 0 <= i < |ops| ==> ops[i] in ops && ops[i] in items;
      label L:
      ok := UpdateCurrentTasks(ops, env);
      if ok {
        ghost var results := OperationResult.ByTaskID(env.userTasks.value);
        forall i | 0 <= i < |items|
          ensures items[i].View() == Polled(before[env.listing[i]], cluster, results, env.refreshTime)
        {
          assert items[i] in items;
          assert old@L(items[i].View()) == before[env.listing[i]];
        }
        forall x | x in ops ensures x.status.currentTask.Some? && x.meta == old(x.meta) {
          RefreshedHasTask(old@L(x.View()), results, env.refreshTime);
        }
        PolledAreCopies(items, env.listing, before, store, cluster, results, env.refreshTime, env.refreshWrites);
      }
    }

    /** Polls, drops the finalizer of a finished operation or dispatches. */
    method Schedule(items: seq<OperationRef>, current: OperationRef, status: Spec.CruiseControlStatus,
                    env: Spec.Environment)
      returns (ghost sent: Option<Spec.Execution>)
      requires Spec.IsListing(env.listing, store)
      requires AreCopies(items, env.listing, store) && Distinct(items) && current in items
      modifies this, items
      ensures old(current.meta.name) in old(store)
      ensures Spec.Outcome(store, sent) == Spec.Schedule(old(store), old(current.meta.name), status, env)
    {
      hide OperationResult.RefreshAll, Spec.WriteChanged, Spec.Eligible, Spec.Dispatch, Views, Distinct;
      CopiesAreNamed(items, env.listing, store, current);
      sent := None;
      var ops, ok := Poll(items, current.meta.cluster, env);
      if !ok {
        return;
      }
      CopiesAreNamed(items, env.listing, store, current);
      if current.View().IsFinalizerNeeded() && !current.View().IsCurrentTaskRunning() {
        if env.metaWrite.TakesEffect() {
          store := Spec.WithoutFinalizer(store, current.meta.name);
        }
        return;
      }
      assert forall i :: 0 <= i < |ops| ==> ops[i] in ops && ops[i] in items;
      sent := Dispatch(ops, status, env);
    }

    /** Adds the finalizer, checks the health of Cruise Control, and schedules. */
    method Admit(items: seq<OperationRef>, current: OperationRef, env: Spec.Environment)
      returns (ghost sent: Option<Spec.Execution>)
      requires Spec.IsListing(env.listing, store)
      requires AreCopies(items, env.listing, store) && Distinct(items) && current in items
      modifies this, items
      ensures old(current.meta.name) in old(store)
      ensures Spec.Outcome(store, sent) == Spec.Admit(old(store), old(current.meta.name), env)
    {
      CopiesAreNamed(items, env.listing, store, current);
      ghost var request := current.meta.name;
      sent := None;
      if !current.meta.deleting && !current.meta.finalizer {
        current.meta := current.meta.(finalizer := true);
        if env.metaWrite.TakesEffect() {
          store := Spec.WithFinalizer(store, current.meta.name);
        }
        if env.metaWrite != Handled {
          return;
        }
      }
      if !env.scaler || env.status.None? || !env.status.value.ready {
        return;
      }
      assert current.meta.name == request;
      sent := Schedule(items, current, env.status.value, env);
    }

    /** One reconcile: the stored operations afterwards, and what was sent, are those of the value-level step. */
    method Reconcile(request: string, env: Spec.Environment) returns (ghost sent: Option<Spec.Execution>)
      requires Spec.IsListing(env.listing, store)
      modifies this
      ensures Spec.Outcome(store, sent) == Spec.Reconcile(old(store), request, env)
    {
      hide Spec.Schedule, Spec.Admit;
      sent := None;
      var items := List(env.listing);
      var current: OperationRef? := null;
      for i := 0 to |items|
        invariant current == null && forall j :: 0 <= j < i ==> env.listing[j] != request
      {
        if items[i].meta.name == request {
          assert store[env.listing[i]] == items[i].View();
          current := items[i];
          break;
        }
        assert store[env.listing[i]] == items[i].View();
      }
      if current == null {
        return;
      }
      CopiesAreNamed(items, env.listing, store, current);
      if current.View().CurrentTaskKind() == StatusRequest {
        return;
      }
      if current.View().IsFinalizerNeeded() && current.View().IsDone() {
        if env.metaWrite.TakesEffect() {
          store := Spec.WithoutFinalizer(store, request);
        }
        return;
      }
      if !current.View().IsValid() || current.meta.cluster == "" {
        return;
      }
      match env.cluster
      case LookupFailed =>
      case ClusterMissing =>
        if current.meta.deleting && env.metaWrite.TakesEffect() {
          store := Spec.WithoutFinalizer(store, request);
        }
      case ClusterFound =>
        sent := Admit(items, current, env);
    }
  }
}
