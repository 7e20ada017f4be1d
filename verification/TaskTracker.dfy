/** The tracked tasks as the objects a reconcile creates, indexes and updates. */
module TaskTracker {
  import opened Wrappers
  import opened OperationTypes
  import opened TaskTypes
  import opened TaskTracking
  import opened TaskScheduling

  class KafkaCluster {
    var status: Status
    var version: nat

    constructor (s: Status, v: nat)
      ensures status == s && version == v
    {
      status, version := s, v;
    }
  }

  class TaskRef {
    const broker: string
    const volume: string
    const kind: Kind
    var brokerState: BrokerState
    var volumeState: VolumeState
    var ref: Option<string>

    constructor (t: TrackedTask)
      ensures View() == t
    {
      broker, volume, kind := t.broker, t.volume, t.kind;
      brokerState, volumeState, ref := t.brokerState, t.volumeState, t.ref;
    }

    function View(): TrackedTask
      reads this
    {
      TrackedTask(broker, brokerState, volume, volumeState, kind, ref)
    }

    /** The task takes over the state of its operation; no operation means that it is done. */
    method FromResult(op: Option<Operation>)
      modifies this
      ensures View() == TaskTypes.FromResult(old(View()), op)
    {
      var phase;
      if op.None? {
        phase := Succeeded;
      } else {
        var state := op.value.CurrentTaskState();
        if state == CompletedWithError {
          phase := if op.value.spec.errorPolicy == Ignore then Succeeded
            else if op.value.meta.paused then PausedPhase else FailedPhase;
        } else {
          phase := if state == Active || state == InExecution then Running
            else if state == Completed then Succeeded else Phase.Scheduled;
        }
      }
      match kind {
        case AddBroker => brokerState := Upscale(phase);
        case RemoveBroker => brokerState := Downscale(phase);
        case RemoveDisks => volumeState := DiskRemoval(phase);
        case Rebalance => volumeState := DiskRebalance(phase);
        case _ =>
      }
    }

    /** The task now waits for the operation `name`. */
    method Schedule(name: string)
      modifies this
      ensures View() == TaskScheduling.Scheduled(old(View()), name)
    {
      ref := Some(name);
      match kind {
        case AddBroker => brokerState := Upscale(Phase.Scheduled);
        case RemoveBroker => brokerState := Downscale(Phase.Scheduled);
        case Rebalance => volumeState := DiskRebalance(Phase.Scheduled);
        case RemoveDisks => volumeState := DiskRemoval(Phase.Scheduled);
        case _ =>
      }
    }

    /** Writes the task into the status of the cluster, unless its broker or volume has gone. */
    method Apply(cluster: KafkaCluster)
      modifies cluster
      ensures cluster.status == TaskTypes.Apply(old(cluster.status), View()) && cluster.version == old(cluster.version)
    {
      if broker in cluster.status {
        var st := cluster.status[broker];
        if kind == AddBroker || kind == RemoveBroker {
          st := st.(state := brokerState);
          st := st.(ref := ref);
          cluster.status := cluster.status[broker := st];
        } else if kind == Rebalance || kind == RemoveDisks {
          if volume in st.volumes {
            st := st.(volumes := st.volumes[volume := VolumeStatus(volumeState, ref)]);
            cluster.status := cluster.status[broker := st];
          }
        }
      }
    }
  }

  function Views(tasks: seq<TaskRef>): seq<TrackedTask>
    reads tasks
  {
    seq(|tasks|, i requires 0 <= i < |tasks| reads tasks => tasks[i].View())
  }

  ghost predicate Unaliased(tasks: seq<TaskRef>) {
    forall i, j :: 0 <= i < j < |tasks| ==> tasks[i] != tasks[j]
  }

  /** The tasks of one kind, in the order they were added. */
  function OfKind(tasks: seq<TaskRef>, kind: Kind): seq<TaskRef> {
    if tasks == [] then []
    else if tasks[|tasks| - 1].kind == kind then OfKind(tasks[..|tasks| - 1], kind) + [tasks[|tasks| - 1]]
    else OfKind(tasks[..|tasks| - 1], kind)
  }

  lemma {:induction false} OfKindMembers(tasks: seq<TaskRef>, kind: Kind)
    ensures forall t :: t in OfKind(tasks, kind) ==> t.kind == kind
  {
    if tasks != [] {
      OfKindMembers(tasks[..|tasks| - 1], kind);
    }
  }

  /** The tasks of one kind that wait to be scheduled, in the order they were added. */
  function Waiting(tasks: seq<TaskRef>, kind: Kind): seq<TaskRef>
    reads tasks
  {
    if tasks == [] then []
    else if IsWaiting(tasks[|tasks| - 1].View(), kind) then Waiting(tasks[..|tasks| - 1], kind) + [tasks[|tasks| - 1]]
    else Waiting(tasks[..|tasks| - 1], kind)
  }

  /** Looking through the index finds what looking through all tasks would. */
  lemma {:induction false} IndexIsEnough(tasks: seq<TaskRef>, kind: Kind)
    ensures Waiting(OfKind(tasks, kind), kind) == Waiting(tasks, kind)
  {
    if tasks != [] {
      var front, last := tasks[..|tasks| - 1], tasks[|tasks| - 1];
      IndexIsEnough(front, kind);
      if last.kind == kind {
        assert OfKind(tasks, kind)[..|OfKind(tasks, kind)| - 1] == OfKind(front, kind);
      }
    }
  }

  lemma {:induction false} WaitingMembers(tasks: seq<TaskRef>, kind: Kind)
    ensures forall t :: t in Waiting(tasks, kind) <==> t in tasks && IsWaiting(t.View(), kind)
  {
    hide IsWaiting, TaskRef.View;
    if tasks != [] {
      assert tasks == tasks[..|tasks| - 1] + [tasks[|tasks| - 1]];
      WaitingMembers(tasks[..|tasks| - 1], kind);
    }
  }

  lemma {:induction false} WaitingUnaliased(tasks: seq<TaskRef>, kind: Kind)
    requires Unaliased(tasks)
    ensures Unaliased(Waiting(tasks, kind))
  {
    hide IsWaiting, TaskRef.View;
    if tasks != [] {
      var front, last := tasks[..|tasks| - 1], tasks[|tasks| - 1];
      WaitingUnaliased(front, kind);
      WaitingMembers(front, kind);
      assert last !in front;
      assert forall i :: 0 <= i < |Waiting(front, kind)| ==> Waiting(front, kind)[i] in Waiting(front, kind);
    }
  }

  ghost predicate IsFirstWaiting(tasks: seq<TaskRef>, kind: Kind, i: nat)
    requires i < |tasks|
    reads tasks
  {
    IsWaiting(tasks[i].View(), kind) && forall j :: 0 <= j < i ==> !IsWaiting(tasks[j].View(), kind)
  }

  lemma {:induction false} WaitingHead(tasks: seq<TaskRef>, kind: Kind)
    ensures Waiting(tasks, kind) != [] ==>
      exists i :: 0 <= i < |tasks| && tasks[i] == Waiting(tasks, kind)[0] && IsFirstWaiting(tasks, kind, i)
  {
    hide IsWaiting, TaskRef.View;
    if tasks != [] {
      var front, last := tasks[..|tasks| - 1], tasks[|tasks| - 1];
      WaitingHead(front, kind);
      if Waiting(front, kind) != [] {
        var i :| 0 <= i < |front| && front[i] == Waiting(front, kind)[0] && IsFirstWaiting(front, kind, i);
        assert tasks[i] == Waiting(tasks, kind)[0] && IsFirstWaiting(tasks, kind, i);
      } else if IsWaiting(last.View(), kind) {
        WaitingMembers(front, kind);
        assert forall j :: 0 <= j < |front| ==> front[j] !in Waiting(front, kind) && tasks[j] == front[j];
        assert IsFirstWaiting(tasks, kind, |front|);
      }
    }
  }

  lemma WaitingSpec(tasks: seq<TaskRef>, kind: Kind)
    requires Unaliased(tasks)
    ensures forall t :: t in Waiting(tasks, kind) <==> t in tasks && IsWaiting(t.View(), kind)
    ensures Unaliased(Waiting(tasks, kind))
    ensures Waiting(tasks, kind) != [] ==>
      exists i :: 0 <= i < |tasks| && tasks[i] == Waiting(tasks, kind)[0] && IsFirstWaiting(tasks, kind, i)
  {
    WaitingMembers(tasks, kind);
    WaitingUnaliased(tasks, kind);
    WaitingHead(tasks, kind);
  }

  lemma WaitingViews(tasks: seq<TaskRef>, kind: Kind)
    requires Unaliased(tasks)
    ensures Waiting(tasks, kind) != [] <==> HasWaiting(Views(tasks), kind)
  {
    WaitingSpec(tasks, kind);
    var views := Views(tasks);
    if Waiting(tasks, kind) != [] {
      assert Waiting(tasks, kind)[0] in tasks;
      var i :| 0 <= i < |tasks| && tasks[i] == Waiting(tasks, kind)[0];
      assert IsWaiting(views[i], kind);
    } else {
      forall i | 0 <= i < |views| ensures !IsWaiting(views[i], kind) {
        assert tasks[i] in tasks && tasks[i] !in Waiting(tasks, kind);
      }
    }
  }

  /** The container of all tasks, with an index by kind. */
  class TasksAndStates {
    var tasks: seq<TaskRef>
    var tasksByOp: map<Kind, seq<TaskRef>>

    ghost predicate Valid()
      reads this
    {
      && Unaliased(tasks)
      && (forall k :: k in tasksByOp ==> tasksByOp[k] == OfKind(tasks, k))
      && (forall k :: k !in tasksByOp ==> OfKind(tasks, k) == [])
    }

    constructor ()
      ensures Valid() && tasks == []
    {
      tasks, tasksByOp := [], map[];
    }

    method Add(t: TaskRef)
      requires Valid() && t !in tasks
      modifies this
      ensures Valid() && tasks == old(tasks) + [t]
    {
      tasks := tasks + [t];
      var same := if t.kind in tasksByOp then tasksByOp[t.kind] else [];
      tasksByOp := tasksByOp[t.kind := same + [t]];
      assert tasks[..|tasks| - 1] == old(tasks);
    }

    /** The waiting tasks of a kind, found through the index. */
    method GetActiveTasksByOp(kind: Kind) returns (waiting: seq<TaskRef>)
      requires Valid()
      ensures waiting == Waiting(tasks, kind)
    {
      var same := if kind in tasksByOp then tasksByOp[kind] else [];
      waiting := [];
      OfKindMembers(tasks, kind);
      for i := 0 to |same|
        invariant waiting == Waiting(same[..i], kind)
      {
        assert same[..i + 1][..i] == same[..i] && same[i] in OfKind(tasks, kind);
        if same[i].View().IsRequired() {
          waiting := waiting + [same[i]];
        }
      }
      assert same[..|same|] == same;
      IndexIsEnough(tasks, kind);
    }

    /** Writes every task into the status. */
    method SyncState(cluster: KafkaCluster)
      requires Valid()
      modifies cluster
      ensures cluster.status == Sync(old(cluster.status), Views(tasks)) && cluster.version == old(cluster.version)
    {
      var views := Views(tasks);
      for i := 0 to |tasks|
        invariant cluster.status == Sync(old(cluster.status), views[..i]) && cluster.version == old(cluster.version)
      {
        assert views[..i + 1][..i] == views[..i];
        tasks[i].Apply(cluster);
      }
      assert views[..|tasks|] == views;
    }

    /** Brings the tasks up to date with the operations they refer to. */
    method UpdateActiveTasks(ops: seq<Operation>)
      requires Valid()
      modifies tasks
      ensures Views(tasks) == UpdatedAll(old(Views(tasks)), ByName(ops))
    {
      var byName: map<string, Operation> := map[];
      for i := 0 to |ops|
        invariant byName == ByName(ops[..i])
      {
        assert ops[..i + 1][..i] == ops[..i];
        byName := byName[ops[i].meta.name := ops[i]];
      }
      assert ops[..|ops|] == ops;
      for i := 0 to |tasks|
        invariant forall j :: 0 <= j < i ==> tasks[j].View() == Updated(old(tasks[j].View()), byName)
        invariant forall j :: i <= j < |tasks| ==> tasks[j].View() == old(tasks[j].View())
      {
        var t := tasks[i];
        if t.ref.Some? {
          t.FromResult(if t.ref.value in byName then Some(byName[t.ref.value]) else None);
        }
      }
    }

    lemma UnaliasedTasks()
      requires Valid()
      ensures Unaliased(tasks)
    {
    }

    method ScheduleEach(kind: Kind, name: string)
      requires Valid() && kind != RemoveBroker
      modifies tasks
      ensures Views(tasks) == ScheduledAll(old(Views(tasks)), kind, name)
    {
      hide IsWaiting, TaskRef.View, TaskScheduling.Scheduled, Valid, Waiting;
      var waiting := GetActiveTasksByOp(kind);
      UnaliasedTasks();
      WaitingSpec(tasks, kind);
      assert forall i :: 0 <= i < |waiting| ==> waiting[i] in tasks;
      for i := 0 to |waiting|
        invariant forall t :: t in tasks ==>
          t.View() == if t in waiting[..i] then TaskScheduling.Scheduled(old(t.View()), name) else old(t.View())
      {
        waiting[i].Schedule(name);
      }
      assert waiting[..|waiting|] == waiting;
    }

    method ScheduleFirst(kind: Kind, name: string)
      requires Valid() && kind == RemoveBroker && HasWaiting(Views(tasks), kind)
      modifies tasks
      ensures Views(tasks) == ScheduledAll(old(Views(tasks)), kind, name)
    {
      hide IsWaiting, TaskRef.View, TaskScheduling.Scheduled, Valid, Waiting;
      var waiting := GetActiveTasksByOp(kind);
      UnaliasedTasks();
      WaitingSpec(tasks, kind);
      WaitingViews(tasks, kind);
      var first := waiting[0];
      assert first in waiting;
      ghost var was := Views(tasks);
      ghost var i :| 0 <= i < |tasks| && tasks[i] == first && IsFirstWaiting(tasks, kind, i);
      assert forall j :: 0 <= j < i ==> !IsWaiting(was[j], kind);
      assert IsWaiting(was[i], kind);
      first.Schedule(name);
      assert forall j :: 0 <= j < |was| ==> (IsPicked(was, kind, j) <==> j == i);
    }

    /** Whether a task of this kind waits. */
    method IsKindWaiting(kind: Kind) returns (yes: bool)
      requires Valid()
      ensures yes == HasWaiting(Views(tasks), kind)
    {
      var waiting := GetActiveTasksByOp(kind);
      WaitingViews(tasks, kind);
      return |waiting| > 0;
    }

    /**
     One pass of the scheduling switch; `created` is the operation that it
     created, if it came that far.
     */
    method ScheduleNext(created: Option<string>)
      requires Valid()
      modifies tasks
      ensures Views(tasks) == ScheduledNext(old(Views(tasks)), created)
    {
      hide Valid, ScheduledAll, HasWaiting, Waiting;
      if created.None? {
        return;
      }
      var adding := IsKindWaiting(AddBroker);
      if adding {
        ScheduleEach(AddBroker, created.value);
        return;
      }
      var removing := IsKindWaiting(RemoveBroker);
      if removing {
        ScheduleFirst(RemoveBroker, created.value);
        return;
      }
      var removingDisks := IsKindWaiting(RemoveDisks);
      if removingDisks {
        ScheduleEach(RemoveDisks, created.value);
        return;
      }
      var rebalancing := IsKindWaiting(Rebalance);
      if rebalancing {
        ScheduleEach(Rebalance, created.value);
      }
    }

    method AddNew(value: TrackedTask)
      requires Valid()
      modifies this
      ensures Valid() && Views(tasks) == old(Views(tasks)) + [value]
      ensures forall t :: t in tasks ==> t in old(tasks) || fresh(t)
    {
      var t := new TaskRef(value);
      Add(t);
    }
  }

  /** Every operation is found under its name. */
  lemma {:induction false} ByNameSpec(ops: seq<Operation>)
    ensures forall n :: n in ByName(ops) ==> ByName(ops)[n] in ops && ByName(ops)[n].meta.name == n
    ensures forall x :: x in ops ==> x.meta.name in ByName(ops)
  {
    if ops != [] {
      ByNameSpec(ops[..|ops| - 1]);
      assert ops == ops[..|ops| - 1] + [ops[|ops| - 1]];
    }
  }

  function ByName(ops: seq<Operation>): map<string, Operation> {
    if ops == [] then map[] else ByName(ops[..|ops| - 1])[ops[|ops| - 1].meta.name := ops[|ops| - 1]]
  }

  // ---------------------------------------------------------------------------
  // Extraction

  /** The active tasks of the brokers `done`. */
  ghost predicate CollectedBrokers(st: Status, done: set<string>, tasks: seq<TrackedTask>) {
    && DistinctSlots(tasks)
    && forall t :: t in tasks <==> IsActiveTask(st, t) && t.broker in done
  }

  /** The active tasks of the brokers `done`, of broker `b` itself and of its volumes `paths`. */
  ghost predicate CollectedVolumes(st: Status, done: set<string>, b: string, paths: set<string>,
                                   tasks: seq<TrackedTask>)
  {
    && DistinctSlots(tasks)
    && forall t :: t in tasks <==>
      IsActiveTask(st, t) && (t.broker in done || (t.broker == b && (t.IsBrokerTask() || t.volume in paths)))
  }

  function OptionalBrokerTask(b: string, st: BrokerStatus): seq<TrackedTask> {
    if st.state.IsActive() then [BrokerTask(b, st)] else []
  }

  function OptionalVolumeTask(b: string, path: string, v: VolumeStatus): seq<TrackedTask> {
    if HasVolumeTask(v) then [VolumeTask(b, path, v)] else []
  }

  lemma BrokerCollected(st: Status, done: set<string>, b: string, tasks: seq<TrackedTask>)
    requires b in st && b !in done && CollectedBrokers(st, done, tasks)
    ensures CollectedVolumes(st, done, b, {}, tasks + OptionalBrokerTask(b, st[b]))
  {
    var all := tasks + OptionalBrokerTask(b, st[b]);
    assert forall i :: 0 <= i < |tasks| ==> tasks[i] in tasks;
    assert forall i :: 0 <= i < |tasks| ==> SlotOf(tasks[i]).broker != b;
  }

  lemma VolumeCollected(st: Status, done: set<string>, b: string, paths: set<string>, path: string,
                        tasks: seq<TrackedTask>)
    requires b in st && b !in done && path in st[b].volumes
    requires path !in paths && CollectedVolumes(st, done, b, paths, tasks)
    ensures CollectedVolumes(st, done, b, paths + {path}, tasks + OptionalVolumeTask(b, path, st[b].volumes[path]))
  {
    var all := tasks + OptionalVolumeTask(b, path, st[b].volumes[path]);
    forall i | 0 <= i < |tasks| ensures SlotOf(tasks[i]) != VolumeSlot(b, path) {
      assert tasks[i] in tasks;
    }
  }

  lemma VolumesCollected(st: Status, done: set<string>, b: string, tasks: seq<TrackedTask>)
    requires b in st && CollectedVolumes(st, done, b, st[b].volumes.Keys, tasks)
    ensures CollectedBrokers(st, done + {b}, tasks)
  {
  }

  /** Collects the active tasks of a cluster, whatever order its maps are walked in. */
  method GetActiveTasksFromCluster(cluster: KafkaCluster) returns (found: TasksAndStates)
    ensures fresh(found) && found.Valid() && (forall t :: t in found.tasks ==> fresh(t))
    ensures AreActiveTasks(cluster.status, Views(found.tasks))
  {
    found := new TasksAndStates();
    var st := cluster.status;
    var left := st.Keys;
    while left != {}
      invariant left <= st.Keys && fresh(found) && found.Valid() && (forall t :: t in found.tasks ==> fresh(t))
      invariant CollectedBrokers(st, st.Keys - left, Views(found.tasks))
      decreases |left|
    {
      var b :| b in left;
      CollectBroker(found, st, st.Keys - left, b);
      assert st.Keys - (left - {b}) == (st.Keys - left) + {b};
      left := left - {b};
    }
  }

  method CollectBroker(found: TasksAndStates, st: Status, ghost done: set<string>, b: string)
    requires found.Valid() && b in st && b !in done && CollectedBrokers(st, done, Views(found.tasks))
    modifies found
    ensures found.Valid() && CollectedBrokers(st, done + {b}, Views(found.tasks))
    ensures forall t :: t in found.tasks ==> t in old(found.tasks) || fresh(t)
  {
    hide CollectedBrokers, CollectedVolumes;
    ghost var before := Views(found.tasks);
    BrokerCollected(st, done, b, before);
    if st[b].state.IsRunningState() || st[b].state.IsRequiredState() {
      if st[b].state.Upscale? {
        found.AddNew(TrackedTask(b, st[b].state, "", NO_VOLUME_STATE, AddBroker, st[b].ref));
      } else {
        found.AddNew(TrackedTask(b, st[b].state, "", NO_VOLUME_STATE, RemoveBroker, st[b].ref));
      }
    }
    assert Views(found.tasks) == before + OptionalBrokerTask(b, st[b]);
    var volumes := st[b].volumes;
    var left := volumes.Keys;
    assert volumes.Keys - left == {};
    while left != {}
      invariant left <= volumes.Keys && found.Valid()
      invariant CollectedVolumes(st, done, b, volumes.Keys - left, Views(found.tasks))
      invariant forall t :: t in found.tasks ==> t in old(found.tasks) || fresh(t)
      decreases |left|
    {
      var path :| path in left;
      var v := volumes[path];
      ghost var views := Views(found.tasks);
      VolumeCollected(st, done, b, volumes.Keys - left, path, views);
      if v.state.IsRebalance() {
        found.AddNew(TrackedTask(b, NO_BROKER_STATE, path, v.state, Rebalance, v.ref));
      } else if v.state.IsRemoval() {
        found.AddNew(TrackedTask(b, NO_BROKER_STATE, path, v.state, RemoveDisks, v.ref));
      }
      assert Views(found.tasks) == views + OptionalVolumeTask(b, path, v);
      assert volumes.Keys - (left - {path}) == (volumes.Keys - left) + {path};
      left := left - {path};
    }
    assert volumes.Keys - left == volumes.Keys;
    VolumesCollected(st, done, b, Views(found.tasks));
  }
}
