/**
 Writing tasks back to the API server: a store that keeps every version of a
 cluster's status, other writers that may act at any moment, and reads that may
 be stale.
 */
module StatusStore {
  import opened Wrappers
  import opened ApiServer
  import opened OperationTypes
  import opened TaskTypes
  import opened TaskTracking
  import opened TaskScheduling
  import opened TaskTracker

  const CONFLICT_RETRY_STEPS: nat := 6

  /** A version of the status; `own` when the controller at hand wrote it. */
  datatype Version = Version(status: Status, own: bool)

  /**
   What the rest of the world does during one attempt: the writes of others
   before the update and before the read that follows a conflict, what becomes
   of the update, and the version read, or None when the read fails.
   */
  datatype Turn = Turn(beforeUpdate: seq<Status>, update: Delivery, beforeGet: seq<Status>, get: Option<nat>)

  function OthersOf(writes: seq<Status>): seq<Version> {
    seq(|writes|, i requires 0 <= i < |writes| => Version(writes[i], false))
  }

  /** From version `start` on, every write of the task controller merges the tasks into the version it replaced. */
  ghost predicate Merges(history: seq<Version>, start: nat, tasks: seq<TrackedTask>) {
    forall k :: 0 < start <= k < |history| && history[k].own ==> history[k].status == Sync(history[k - 1].status, tasks)
  }

  function OwnWrites(history: seq<Version>): nat {
    if history == [] then 0 else OwnWrites(history[..|history| - 1]) + if history[|history| - 1].own then 1 else 0
  }

  lemma {:induction false} OwnWritesAppend(a: seq<Version>, b: seq<Version>)
    ensures OwnWrites(a + b) == OwnWrites(a) + OwnWrites(b)
  {
    if b == [] {
      assert a + b == a;
    } else {
      OwnWritesAppend(a, b[..|b| - 1]);
      assert (a + b)[..|a + b| - 1] == a + b[..|b| - 1];
    }
  }

  lemma {:induction false} NoOwnWrites(writes: seq<Status>)
    ensures OwnWrites(OthersOf(writes)) == 0
  {
    if writes != [] {
      NoOwnWrites(writes[..|writes| - 1]);
      assert OthersOf(writes)[..|writes| - 1] == OthersOf(writes[..|writes| - 1]);
    }
  }

  class Store {
    var history: seq<Version>
    var updates: nat   // how many updates of the controller at hand the store has received

    ghost predicate Valid()
      reads this
    {
      |history| > 0
    }

    method Others(writes: seq<Status>)
      requires Valid()
      modifies this
      ensures Valid() && history == old(history) + OthersOf(writes) && updates == old(updates)
      ensures OwnWrites(history) == OwnWrites(old(history))
    {
      OwnWritesAppend(history, OthersOf(writes));
      NoOwnWrites(writes);
      history := history + OthersOf(writes);
    }

    /** Commits the cluster's status if it was made from the latest version. */
    method Update(cluster: KafkaCluster, delivery: Delivery) returns (error: Option<ApiError>)
      requires Valid()
      modifies this, cluster
      ensures Valid() && cluster.status == old(cluster.status) && updates == old(updates) + 1
      ensures
        var commits := delivery.TakesEffect() && old(cluster.version) + 1 == |old(history)|;
        && history == old(history) + (if commits then [Version(old(cluster.status), true)] else [])
        && error == (if delivery == Missing then Some(NotFound) else if delivery != Handled then Some(Failure)
                     else if commits then None else Some(Conflict))
        && cluster.version == (if error.None? then |old(history)| else old(cluster.version))
        && OwnWrites(history) == OwnWrites(old(history)) + if commits then 1 else 0
    {
      updates := updates + 1;
      if delivery == Missing {
        return Some(NotFound);
      }
      if delivery == Refused {
        return Some(Failure);
      }
      if cluster.version + 1 != |history| {
        return if delivery == Handled then Some(Conflict) else Some(Failure);
      }
      OwnWritesAppend(history, [Version(cluster.status, true)]);
      history := history + [Version(cluster.status, true)];
      if delivery == AnswerLost {
        return Some(Failure);
      }
      cluster.version := |history| - 1;
      return None;
    }

    /**
     Updates the whole object: the status is a subresource, so the server keeps the
     stored one and answers with it.
     */
    method UpdateObject(cluster: KafkaCluster, delivery: Delivery) returns (error: Option<ApiError>)
      requires Valid()
      modifies this`updates, cluster
      ensures updates == old(updates) + 1
      ensures error == (if delivery == Missing then Some(NotFound) else if delivery != Handled then Some(Failure)
                        else if old(cluster.version) + 1 == |history| then None else Some(Conflict))
      ensures cluster.version == old(cluster.version)
      ensures cluster.status == if error.None? then history[|history| - 1].status else old(cluster.status)
    {
      updates := updates + 1;
      if delivery == Missing {
        return Some(NotFound);
      }
      if delivery != Handled {
        return Some(Failure);
      }
      if cluster.version + 1 != |history| {
        return Some(Conflict);
      }
      cluster.status := history[cluster.version].status;
      return None;
    }

    /** Reads some version, not necessarily the latest one. */
    method Get(cluster: KafkaCluster, version: Option<nat>) returns (ok: bool)
      requires Valid()
      modifies cluster
      ensures ok == version.Some?
      ensures ok ==> cluster.version < |history| && cluster.status == history[cluster.version].status
      ensures ok && version.value < |history| ==> cluster.version == version.value
      ensures !ok ==> cluster.status == old(cluster.status) && cluster.version == old(cluster.version)
    {
      if version.None? {
        return false;
      }
      cluster.version := if version.value < |history| then version.value else |history| - 1;
      cluster.status := history[cluster.version].status;
      return true;
    }
  }

  /** A cluster object holds a version of the store with the tasks merged into it. */
  ghost predicate Holds(store: Store, cluster: KafkaCluster, tasks: seq<TrackedTask>)
    reads store, cluster
  {
    cluster.version < |store.history| && cluster.status == Sync(store.history[cluster.version].status, tasks)
  }

  lemma MergesExtends(history: seq<Version>, start: nat, tasks: seq<TrackedTask>, more: seq<Version>)
    requires Merges(history, start, tasks) && start <= |history|
    requires forall k :: 0 <= k < |more| ==> !more[k].own
    ensures Merges(history + more, start, tasks)
  {
    forall k | 0 < start <= k < |history + more| && (history + more)[k].own
      ensures (history + more)[k].status == Sync((history + more)[k - 1].status, tasks)
    {
      assert k < |history|;
      assert (history + more)[k] == history[k] && (history + more)[k - 1] == history[k - 1];
    }
  }

  lemma MergesCommit(history: seq<Version>, start: nat, tasks: seq<TrackedTask>, st: Status)
    requires Merges(history, start, tasks) && start <= |history| && |history| > 0
    requires st == Sync(history[|history| - 1].status, tasks)
    ensures Merges(history + [Version(st, true)], start, tasks)
  {
    var h := history + [Version(st, true)];
    forall k | 0 < start <= k < |h| && h[k].own ensures h[k].status == Sync(h[k - 1].status, tasks) {
      assert k < |history| ==> h[k] == history[k] && h[k - 1] == history[k - 1];
    }
  }

  /**
   One attempt: update, and on a conflict read again and merge again, so that
   the next attempt starts from a version of the store.
   */
  method Attempt(store: Store, cluster: KafkaCluster, tasks: TasksAndStates, turn: Turn, ghost start: nat)
    returns (error: Option<ApiError>)
    requires store.Valid() && tasks.Valid() && Holds(store, cluster, Views(tasks.tasks))
    requires start <= |store.history| && Merges(store.history, start, Views(tasks.tasks))
    modifies store, cluster
    ensures store.Valid() && old(store.history) <= store.history && store.updates == old(store.updates) + 1
    ensures Merges(store.history, start, Views(tasks.tasks))
    ensures OwnWrites(store.history) <= OwnWrites(old(store.history)) + 1
    ensures error.None? ==>
      && OwnWrites(store.history) == OwnWrites(old(store.history)) + 1 && cluster.status == old(cluster.status)
      && cluster.version < |store.history| && cluster.status == store.history[cluster.version].status
    ensures error == Some(Conflict) ==>
      OwnWrites(store.history) == OwnWrites(old(store.history)) && Holds(store, cluster, Views(tasks.tasks))
  {
    ghost var views := Views(tasks.tasks);
    error := UpdateOnce(store, cluster, turn, views, start);
    if error == Some(Conflict) {
      MergesExtends(store.history, start, views, OthersOf(turn.beforeGet));
      store.Others(turn.beforeGet);
      var ok := MergeAgain(store, cluster, tasks, turn.get);
      if !ok {
        return Some(Failure);
      }
    }
  }

  method UpdateOnce(store: Store, cluster: KafkaCluster, turn: Turn, ghost views: seq<TrackedTask>, ghost start: nat)
    returns (error: Option<ApiError>)
    requires store.Valid() && Holds(store, cluster, views)
    requires start <= |store.history| && Merges(store.history, start, views)
    modifies store, cluster
    ensures store.Valid() && old(store.history) <= store.history && store.updates == old(store.updates) + 1
    ensures Merges(store.history, start, views)
    ensures OwnWrites(store.history) <= OwnWrites(old(store.history)) + 1
    ensures error.None? ==>
      && OwnWrites(store.history) == OwnWrites(old(store.history)) + 1 && cluster.status == old(cluster.status)
      && cluster.version < |store.history| && cluster.status == store.history[cluster.version].status
    ensures error == Some(Conflict) ==> OwnWrites(store.history) == OwnWrites(old(store.history))
  {
    hide Merges, Sync;
    MergesExtends(store.history, start, views, OthersOf(turn.beforeUpdate));
    store.Others(turn.beforeUpdate);
    ghost var h := store.history;
    if cluster.version + 1 == |h| {
      MergesCommit(h, start, views, cluster.status);
    }
    error := store.Update(cluster, turn.update);
    assert store.history == h || store.history == h + [Version(cluster.status, true)];
  }

  method MergeAgain(store: Store, cluster: KafkaCluster, tasks: TasksAndStates, version: Option<nat>) returns (ok: bool)
    requires store.Valid() && tasks.Valid()
    modifies cluster
    ensures ok ==> Holds(store, cluster, Views(tasks.tasks))
  {
    ok := store.Get(cluster, version);
    if ok {
      tasks.SyncState(cluster);
    }
  }

  /** The tasks are merged into the status: merging them again changes nothing. */
  ghost predicate IsMerged(st: Status, tasks: seq<TrackedTask>) {
    Sync(st, tasks) == st
  }

  /**
   Merges the tasks into the cluster's status and writes the result, at most
   six times. On success either there was nothing to change, or exactly one
   version was written; every version written, even one whose answer was lost,
   merges the tasks into the version it replaced. Either way the tasks are then
   merged into the version that the cluster object holds.
   */
  method UpdateStatus(store: Store, cluster: KafkaCluster, tasks: TasksAndStates, turns: seq<Turn>)
    returns (error: Option<ApiError>)
    requires store.Valid() && tasks.Valid() && |turns| == CONFLICT_RETRY_STEPS
    requires cluster.version < |store.history| && cluster.status == store.history[cluster.version].status
    modifies store, cluster
    ensures store.Valid() && old(store.history) <= store.history
    ensures Merges(store.history, |old(store.history)|, Views(tasks.tasks))
    ensures store.updates <= old(store.updates) + 6
    ensures
      var nothing := Sync(old(cluster.status), Views(tasks.tasks)) == old(cluster.status);
      && (nothing ==> error.None? && store.history == old(store.history) && store.updates == old(store.updates))
      && (!nothing && error.None? ==> OwnWrites(store.history) == OwnWrites(old(store.history)) + 1)
    ensures error.Some? ==> OwnWrites(store.history) <= OwnWrites(old(store.history)) + 1
    ensures error == Some(Conflict) ==>
      OwnWrites(store.history) == OwnWrites(old(store.history)) &&
        store.updates == old(store.updates) + 6
    ensures error.None? ==> cluster.version < |store.history| && cluster.status == store.history[cluster.version].status
    ensures error.None? && AreTasks(Views(tasks.tasks)) ==> IsMerged(cluster.status, Views(tasks.tasks))
  {
    var current := cluster.status;
    tasks.SyncState(cluster);
    if current == cluster.status {
      return None;
    }
    ghost var start := |store.history|;
    error := None;
    var step := 0;
    while step < CONFLICT_RETRY_STEPS
      invariant 0 <= step <= CONFLICT_RETRY_STEPS
      invariant store.Valid() && old(store.history) <= store.history && store.updates == old(store.updates) + step
      invariant Merges(store.history, start, Views(tasks.tasks)) && Holds(store, cluster, Views(tasks.tasks))
      invariant OwnWrites(store.history) == OwnWrites(old(store.history))
      invariant error == if step == 0 then None else Some(Conflict)
    {
      ghost var base := store.history[cluster.version].status;
      error := Attempt(store, cluster, tasks, turns[step], start);
      step := step + 1;
      if error != Some(Conflict) {
        if AreTasks(Views(tasks.tasks)) {
          SyncTwice(base, Views(tasks.tasks));
        }
        return;
      }
    }
  }

  // ---------------------------------------------------------------------------
  // What a merge leaves alone

  /** Only slots of the given tasks differ; no broker or volume appears or vanishes; all other fields are the same. */
  ghost predicate TouchesOnly(before: Status, after: Status, tasks: seq<TrackedTask>) {
    && SameShape(after, before)
    && forall s :: Read(after, s) != Read(before, s) ==>
      exists t :: t in tasks && SlotOf(t) == s && Read(after, s) == Some(CellOf(t))
  }

  /**
   In every history of updates, a version the task controller wrote has the
   brokers, volumes and other fields of the version it replaced, and differs
   from it only where one of its tasks says so.
   */
  lemma WritesTouchOnlyTasks(history: seq<Version>, start: nat, tasks: seq<TrackedTask>, k: nat)
    requires AreTasks(tasks) && Merges(history, start, tasks)
    requires 0 < start <= k < |history| && history[k].own
    ensures TouchesOnly(history[k - 1].status, history[k].status, tasks)
  {
    var before, after := history[k - 1].status, history[k].status;
    SyncSpec(before, tasks);
    forall s | Read(after, s) != Read(before, s)
      ensures exists t :: t in tasks && SlotOf(t) == s && Read(after, s) == Some(CellOf(t))
    {
      TaskAtSpec(tasks, s);
      assert TaskAt(tasks, s).value in tasks;
    }
  }

  // ---------------------------------------------------------------------------
  // A reconcile of the task controller

  /** Every version written from `start` on merges one of the two task lists. */
  ghost predicate MergesEither(history: seq<Version>, start: nat, a: seq<TrackedTask>, b: seq<TrackedTask>) {
    forall k :: 0 < start <= k < |history| && history[k].own ==>
      history[k].status == Sync(history[k - 1].status, a) || history[k].status == Sync(history[k - 1].status, b)
  }

  lemma MergesJoin(h1: seq<Version>, h2: seq<Version>, start: nat, a: seq<TrackedTask>, b: seq<TrackedTask>)
    requires h1 <= h2 && start <= |h1| && Merges(h1, start, a) && Merges(h2, |h1|, b)
    ensures MergesEither(h2, start, a, b)
  {
    forall k | 0 < start <= k < |h2| && h2[k].own
      ensures h2[k].status == Sync(h2[k - 1].status, a) || h2[k].status == Sync(h2[k - 1].status, b)
    {
      if k < |h1| {
        assert h1[k] == h2[k] && h1[k - 1] == h2[k - 1];
      }
    }
  }

  lemma MergesNothing(history: seq<Version>, a: seq<TrackedTask>, b: seq<TrackedTask>)
    ensures MergesEither(history, |history|, a, b)
  {
  }

  lemma NothingScheduled(st: Status, updated: seq<TrackedTask>)
    ensures ScheduledNext(updated, None) == updated && IsMerged(st, [])
  {
  }

  /**
   What becomes of creating the operation that the waiting tasks need: it is
   created, or every broker is a controller-only node and left out, or the
   reconcile has to be repeated.
   */
  datatype Creation = Created(ref: string) | NoneLeft | ToRepeat {
    function Ref(): Option<string> {
      if Created? then Some(ref) else None
    }
  }

  /**
   Extracts the tasks of the version it holds, updates them from the
   operations, writes them back, schedules the next ones and writes those back:
   also when no broker is left to add, but not when none is left to rebalance.
   */
  method Reconcile(store: Store, cluster: KafkaCluster, ops: seq<Operation>, first: seq<Turn>,
                   creation: Creation, second: seq<Turn>)
    returns (ok: bool)
    requires store.Valid() && |first| == |second| == CONFLICT_RETRY_STEPS
    requires cluster.version < |store.history| && cluster.status == store.history[cluster.version].status
    modifies store, cluster
    ensures store.Valid() && old(store.history) <= store.history
    ensures store.updates <= old(store.updates) + 12
    ensures exists tasks ::
      && AreActiveTasks(old(cluster.status), tasks)
      && ReconcileWrites(old(store.history), store.history, UpdatedAll(tasks, ByName(ops)), creation.Ref())
      && (ok ==> IsMerged(cluster.status, ScheduledNext(UpdatedAll(tasks, ByName(ops)), creation.Ref())))
    ensures ok ==> cluster.version < |store.history| && cluster.status == store.history[cluster.version].status
  {
    hide Merges, MergesEither, AreActiveTasks, UpdatedAll, ScheduledNext, Sync, NextKind, OwnWrites,
         TasksAndStates.Valid;
    var tracked := GetActiveTasksFromCluster(cluster);
    ghost var tasks := Views(tracked.tasks);
    ghost var start := |store.history|;
    SlotsOfWritten(cluster.status, tasks, ops, creation.Ref());
    var created := creation.Ref();
    if tracked.tasks == [] {
      MergesNothing(store.history, UpdatedAll(tasks, ByName(ops)),
                    ScheduledNext(UpdatedAll(tasks, ByName(ops)), created));
      NothingScheduled(cluster.status, tasks);
      return true;
    }
    assert forall i :: 0 <= i < |tracked.tasks| ==> tracked.tasks[i] in tracked.tasks;
    tracked.UpdateActiveTasks(ops);
    ghost var updated := Views(tracked.tasks);
    var error := UpdateStatus(store, cluster, tracked, first);
    ghost var h1 := store.history;
    MergesJoin(h1, h1, start, updated, ScheduledNext(updated, created));
    if error.Some? {
      return false;
    }
    ok := ScheduleAndWrite(store, cluster, tracked, creation, second);
    MergesJoin(h1, store.history, start, updated, ScheduledNext(updated, created));
  }

  /** The second half of a reconcile, after the updated tasks have been written. */
  method ScheduleAndWrite(store: Store, cluster: KafkaCluster, tracked: TasksAndStates, creation: Creation,
                          turns: seq<Turn>)
    returns (ok: bool)
    requires store.Valid() && tracked.Valid() && |turns| == CONFLICT_RETRY_STEPS
    requires cluster.version < |store.history| && cluster.status == store.history[cluster.version].status
    requires IsMerged(cluster.status, Views(tracked.tasks))
    requires AreTasks(ScheduledNext(Views(tracked.tasks), creation.Ref()))
    modifies store, cluster, tracked.tasks
    ensures store.Valid() && old(store.history) <= store.history
    ensures store.updates <= old(store.updates) + 6
    ensures Merges(store.history, |old(store.history)|, ScheduledNext(old(Views(tracked.tasks)), creation.Ref()))
    ensures ok ==> cluster.version < |store.history| && cluster.status == store.history[cluster.version].status
    ensures ok ==> IsMerged(cluster.status, ScheduledNext(old(Views(tracked.tasks)), creation.Ref()))
  {
    hide ScheduledNext, Sync, NextKind, OwnWrites, TasksAndStates.Valid;
    var isWaiting := NeedsScheduling(tracked);
    if isWaiting && creation == ToRepeat {
      return false;
    }
    var adding := tracked.IsKindWaiting(AddBroker);
    if isWaiting && creation == NoneLeft && !adding {
      NothingScheduled(cluster.status, Views(tracked.tasks));
      return true;
    }
    tracked.ScheduleNext(creation.Ref());
    var error := UpdateStatus(store, cluster, tracked, turns);
    return error.None?;
  }

  ghost predicate ReconcileWrites(before: seq<Version>, after: seq<Version>, updated: seq<TrackedTask>,
                                  created: Option<string>)
  {
    MergesEither(after, |before|, updated, ScheduledNext(updated, created))
  }

  method NeedsScheduling(tracked: TasksAndStates) returns (yes: bool)
    requires tracked.Valid()
    ensures yes == NextKind(Views(tracked.tasks)).Some?
  {
    var adding := tracked.IsKindWaiting(AddBroker);
    var removing := tracked.IsKindWaiting(RemoveBroker);
    var removingDisks := tracked.IsKindWaiting(RemoveDisks);
    var rebalancing := tracked.IsKindWaiting(Rebalance);
    return adding || removing || removingDisks || rebalancing;
  }

  /** Tasks of the same slots touch the same cells. */
  lemma SameSlotsTouch(before: Status, after: Status, tasks: seq<TrackedTask>, s: Slot)
    requires TouchesOnly(before, after, tasks) && Read(after, s) != Read(before, s)
    ensures exists t :: t in tasks && SlotOf(t) == s
  {
    var t :| t in tasks && SlotOf(t) == s && Read(after, s) == Some(CellOf(t));
  }

  /**
   Whatever others write meanwhile, a reconcile changes only the cells that were
   active tasks in the version it started from, and brings back no broker or
   volume that others have deleted.
   */
  lemma ReconcileTouchesOnlyActive(
    before: seq<Version>, after: seq<Version>, st: Status, tasks: seq<TrackedTask>, ops: seq<Operation>,
    created: Option<string>, k: nat)
    requires AreActiveTasks(st, tasks) && ReconcileWrites(before, after, UpdatedAll(tasks, ByName(ops)), created)
    requires 0 < |before| <= k < |after| && after[k].own
    ensures SameShape(after[k].status, after[k - 1].status)
    ensures forall s :: Read(after[k].status, s) != Read(after[k - 1].status, s) ==>
      exists t :: IsActiveTask(st, t) && SlotOf(t) == s
  {
    var updated := UpdatedAll(tasks, ByName(ops));
    var scheduled := ScheduledNext(updated, created);
    SlotsOfWritten(st, tasks, ops, created);
    hide Updated, ScheduledNext, Read, SlotOf, IsActiveTask, Sync;
    var written := if after[k].status == Sync(after[k - 1].status, updated) then updated else scheduled;
    WritesTouchOnlyTasks([after[k - 1], after[k]], 1, written, 1);
    forall s | Read(after[k].status, s) != Read(after[k - 1].status, s)
      ensures exists t :: IsActiveTask(st, t) && SlotOf(t) == s
    {
      SameSlotsTouch(after[k - 1].status, after[k].status, written, s);
      var i :| 0 <= i < |written| && SlotOf(written[i]) == s;
      assert SlotOf(tasks[i]) == s && tasks[i] in tasks;
    }
  }

  /** Updated and scheduled tasks keep the slots of the active tasks. */
  lemma SlotsOfWritten(st: Status, tasks: seq<TrackedTask>, ops: seq<Operation>, created: Option<string>)
    requires AreActiveTasks(st, tasks)
    ensures
      var updated := UpdatedAll(tasks, ByName(ops));
      var scheduled := ScheduledNext(updated, created);
      && AreTasks(updated) && AreTasks(scheduled) && |updated| == |scheduled| == |tasks|
      && forall i :: 0 <= i < |tasks| ==> SlotOf(updated[i]) == SlotOf(scheduled[i]) == SlotOf(tasks[i])
  {
    forall t | t in tasks ensures t.IsBrokerTask() || t.IsVolumeTask() {
      ActiveTaskCell(st, t);
    }
    var updated := UpdatedAll(tasks, ByName(ops));
    UpdatedKeepsSlots(tasks, ByName(ops));
    SchedulingKeepsSlots(updated, created);
    forall i | 0 <= i < |tasks| ensures SlotOf(updated[i]) == SlotOf(tasks[i]) {
      UpdatedFrame(tasks[i], ByName(ops));
    }
  }
}
