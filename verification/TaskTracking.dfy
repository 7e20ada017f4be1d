/** Laws of extracting tasks from a status, updating them and writing them back. */
module TaskTracking {
  import opened Wrappers
  import opened OperationTypes
  import opened TaskTypes

  // ---------------------------------------------------------------------------
  // A status as independent cells

  datatype Slot = BrokerSlot(broker: string) | VolumeSlot(broker: string, volume: string)

  datatype Cell =
    | BrokerCell(state: BrokerState, ref: Option<string>)
    | VolumeCell(volume: VolumeState, ref: Option<string>)

  function Read(st: Status, s: Slot): Option<Cell> {
    match s
    case BrokerSlot(b) => if b in st then Some(BrokerCell(st[b].state, st[b].ref)) else None
    case VolumeSlot(b, v) =>
      if b in st && v in st[b].volumes then Some(VolumeCell(st[b].volumes[v].state, st[b].volumes[v].ref)) else None
  }

  function SlotOf(t: TrackedTask): Slot {
    if t.IsBrokerTask() then BrokerSlot(t.broker) else VolumeSlot(t.broker, t.volume)
  }

  function CellOf(t: TrackedTask): Cell {
    if t.IsBrokerTask() then BrokerCell(t.brokerState, t.ref) else VolumeCell(t.volumeState, t.ref)
  }

  ghost predicate AreTasks(tasks: seq<TrackedTask>) {
    forall t :: t in tasks ==> t.IsBrokerTask() || t.IsVolumeTask()
  }

  /** No two tasks are about the same broker state or the same volume. */
  ghost predicate DistinctSlots(tasks: seq<TrackedTask>) {
    forall i, j :: 0 <= i < j < |tasks| ==> SlotOf(tasks[i]) != SlotOf(tasks[j])
  }

  /** The same brokers with the same volumes and untouched fields. */
  ghost predicate SameShape(a: Status, b: Status) {
    a.Keys == b.Keys && forall k :: k in a ==> a[k].volumes.Keys == b[k].volumes.Keys && a[k].rest == b[k].rest
  }

  lemma SameCells(a: Status, b: Status)
    requires SameShape(a, b) && forall s :: Read(a, s) == Read(b, s)
    ensures a == b
  {
    forall k | k in a ensures a[k] == b[k] {
      assert Read(a, BrokerSlot(k)) == Read(b, BrokerSlot(k));
      forall v | v in a[k].volumes ensures a[k].volumes[v] == b[k].volumes[v] {
        assert Read(a, VolumeSlot(k, v)) == Read(b, VolumeSlot(k, v));
      }
      assert a[k].volumes == b[k].volumes;
    }
  }

  lemma ApplySpec(st: Status, t: TrackedTask)
    requires t.IsBrokerTask() || t.IsVolumeTask()
    ensures SameShape(Apply(st, t), st)
    ensures forall s ::
      Read(Apply(st, t), s) == if s == SlotOf(t) && Read(st, s).Some? then Some(CellOf(t)) else Read(st, s)
  {
  }

  /** The task of a slot, if there is one. */
  function TaskAt(tasks: seq<TrackedTask>, s: Slot): Option<TrackedTask> {
    if tasks == [] then None
    else if SlotOf(tasks[|tasks| - 1]) == s then Some(tasks[|tasks| - 1])
    else TaskAt(tasks[..|tasks| - 1], s)
  }

  lemma {:induction false} TaskAtSpec(tasks: seq<TrackedTask>, s: Slot)
    ensures TaskAt(tasks, s).Some? ==> TaskAt(tasks, s).value in tasks && SlotOf(TaskAt(tasks, s).value) == s
    ensures TaskAt(tasks, s).None? ==> forall t :: t in tasks ==> SlotOf(t) != s
  {
    if tasks != [] {
      assert tasks == tasks[..|tasks| - 1] + [tasks[|tasks| - 1]];
      TaskAtSpec(tasks[..|tasks| - 1], s);
    }
  }

  /** Writing tasks back sets the cells of their slots, and resurrects or drops nothing. */
  lemma {:induction false} SyncSpec(st: Status, tasks: seq<TrackedTask>)
    requires AreTasks(tasks)
    ensures SameShape(Sync(st, tasks), st)
    ensures forall s :: Read(Sync(st, tasks), s) ==
                        if Read(st, s).Some? && TaskAt(tasks, s).Some? then Some(CellOf(TaskAt(tasks, s).value))
                        else Read(st, s)
  {
    hide Read, Apply;
    if tasks != [] {
      SyncSpec(st, tasks[..|tasks| - 1]);
      assert tasks[|tasks| - 1] in tasks;
      ApplySpec(Sync(st, tasks[..|tasks| - 1]), tasks[|tasks| - 1]);
    }
  }

  lemma DistinctMeansEqual(tasks: seq<TrackedTask>, t: TrackedTask, u: TrackedTask)
    requires DistinctSlots(tasks) && t in tasks && u in tasks && SlotOf(t) == SlotOf(u)
    ensures t == u
  {
    var i :| 0 <= i < |tasks| && tasks[i] == t;
    var j :| 0 <= j < |tasks| && tasks[j] == u;
  }

  /** The result of writing tasks back does not depend on their order. */
  lemma SyncIgnoresOrder(st: Status, a: seq<TrackedTask>, b: seq<TrackedTask>)
    requires AreTasks(a) && AreTasks(b) && DistinctSlots(a) && DistinctSlots(b)
    requires forall t :: t in a <==> t in b
    ensures Sync(st, a) == Sync(st, b)
  {
    SyncSpec(st, a);
    SyncSpec(st, b);
    forall s ensures Read(Sync(st, a), s) == Read(Sync(st, b), s) {
      TaskAtSpec(a, s);
      TaskAtSpec(b, s);
      if TaskAt(a, s).Some? && TaskAt(b, s).Some? {
        DistinctMeansEqual(a, TaskAt(a, s).value, TaskAt(b, s).value);
      }
    }
    SameCells(Sync(st, a), Sync(st, b));
  }

  /** Merging again changes nothing. */
  lemma SyncTwice(st: Status, tasks: seq<TrackedTask>)
    requires AreTasks(tasks)
    ensures Sync(Sync(st, tasks), tasks) == Sync(st, tasks)
  {
    hide Read, Sync, TaskAt, CellOf, SlotOf;
    SyncSpec(st, tasks);
    SyncSpec(Sync(st, tasks), tasks);
    SameCells(Sync(Sync(st, tasks), tasks), Sync(st, tasks));
  }

  // ---------------------------------------------------------------------------
  // Extraction

  /** tasks are the active tasks of st, each once. */
  ghost predicate AreActiveTasks(st: Status, tasks: seq<TrackedTask>) {
    DistinctSlots(tasks) && forall t :: t in tasks <==> IsActiveTask(st, t)
  }

  /** An active task mirrors its cell, and says what kind of operation it needs. */
  lemma ActiveTaskCell(st: Status, t: TrackedTask)
    requires IsActiveTask(st, t)
    ensures t.IsBrokerTask() || t.IsVolumeTask()
    ensures Read(st, SlotOf(t)) == Some(CellOf(t))
    ensures t.IsBrokerTask() ==>
      && t.volume == "" && t.volumeState == NO_VOLUME_STATE
      && t.brokerState.IsActive() && t.kind == BrokerKind(t.brokerState)
    ensures t.IsVolumeTask() ==>
      t.brokerState == NO_BROKER_STATE && (t.volumeState.IsRebalance() || t.volumeState.IsRemoval()) &&
      t.kind == (if t.volumeState.IsRebalance() then Rebalance else RemoveDisks)
  {
  }

  /**
   The tasks of a status, written out: one for each broker that is being added or
   removed, and one for each volume whose disk is being filled or emptied, unless
   it has succeeded, with the state and the operation that the status shows.
   */
  lemma ActiveTasksAre(st: Status, t: TrackedTask)
    ensures IsActiveTask(st, t) <==>
      t.broker in st &&
      var b := st[t.broker];
      || (t.kind == AddBroker && b.state.Upscale? && b.state.phase != Succeeded &&
          t == TrackedTask(t.broker, b.state, "", OtherVolumeState(""), AddBroker, b.ref))
      || (t.kind == RemoveBroker && b.state.Downscale? && b.state.phase != Succeeded &&
          t == TrackedTask(t.broker, b.state, "", OtherVolumeState(""), RemoveBroker, b.ref))
      || (t.volume in b.volumes &&
          var v := b.volumes[t.volume];
          || (t.kind == Rebalance && v.state.DiskRebalance? && v.state.phase != Succeeded &&
              t == TrackedTask(t.broker, OtherBrokerState(""), t.volume, v.state, Rebalance, v.ref))
          || (t.kind == RemoveDisks && v.state.DiskRemoval? && v.state.phase != Succeeded &&
              t == TrackedTask(t.broker, OtherBrokerState(""), t.volume, v.state, RemoveDisks, v.ref)))
  {
  }

  /** A task is left alone without an operation, and has succeeded when its operation is gone. */
  lemma MissingMeansDone(t: TrackedTask, ops: map<string, Operation>)
    requires t.IsBrokerTask() || t.IsVolumeTask()
    ensures t.ref.None? ==> Updated(t, ops) == t
    ensures t.ref.Some? && t.ref.value !in ops ==> HasSucceeded(Updated(t, ops))
    ensures t.ref.Some? && t.ref.value in ops ==>
      (ops[t.ref.value].CurrentTaskState() in {Active, InExecution, NoState} ==> !HasSucceeded(Updated(t, ops)))
  {
  }

  /** Extracting the tasks and writing them straight back changes nothing. */
  lemma ExtractThenSyncIsIdentity(st: Status, tasks: seq<TrackedTask>)
    requires AreActiveTasks(st, tasks)
    ensures Sync(st, tasks) == st
  {
    forall t | t in tasks ensures t.IsBrokerTask() || t.IsVolumeTask() {
      ActiveTaskCell(st, t);
    }
    SyncSpec(st, tasks);
    forall s ensures Read(Sync(st, tasks), s) == Read(st, s) {
      TaskAtSpec(tasks, s);
      if TaskAt(tasks, s).Some? {
        ActiveTaskCell(st, TaskAt(tasks, s).value);
      }
    }
    SameCells(Sync(st, tasks), st);
  }

  /** Updating a task keeps its slot, its kind and its reference. */
  lemma UpdatedFrame(t: TrackedTask, ops: map<string, Operation>)
    ensures
      var u := Updated(t, ops);
      u.kind == t.kind && SlotOf(u) == SlotOf(t) && u.ref == t.ref && u.broker == t.broker && u.volume == t.volume
  {
  }

  /** The updated tasks are again tasks of distinct slots. */
  lemma UpdatedKeepsSlots(tasks: seq<TrackedTask>, ops: map<string, Operation>)
    requires AreTasks(tasks) && DistinctSlots(tasks)
    ensures AreTasks(UpdatedAll(tasks, ops)) && DistinctSlots(UpdatedAll(tasks, ops))
  {
    var us := UpdatedAll(tasks, ops);
    forall i | 0 <= i < |us|
      ensures SlotOf(us[i]) == SlotOf(tasks[i]) && us[i].kind == tasks[i].kind && tasks[i] in tasks
    {
      UpdatedFrame(tasks[i], ops);
    }
  }

  /** An updated task is extracted from its own cell exactly when it has not succeeded. */
  lemma UpdatedIsActive(before: Status, st: Status, t: TrackedTask, ops: map<string, Operation>)
    requires IsActiveTask(before, t) && Read(st, SlotOf(t)) == Some(CellOf(Updated(t, ops)))
    ensures IsActiveTask(st, Updated(t, ops)) <==> !HasSucceeded(Updated(t, ops))
  {
    ActiveTaskCell(before, t);
  }

  /** An active task of st lies in a slot whose cell decides what the task is. */
  lemma ActiveFromCell(a: Status, b: Status, t: TrackedTask)
    requires IsActiveTask(a, t) && Read(a, SlotOf(t)) == Read(b, SlotOf(t))
    ensures IsActiveTask(b, t)
  {
    ActiveTaskCell(a, t);
  }

  /**
   After the tasks have been updated from their operations and written back,
   extracting again yields exactly the updated tasks that have not succeeded.
   */
  lemma ReExtraction(st: Status, tasks: seq<TrackedTask>, ops: map<string, Operation>, u: TrackedTask)
    requires AreActiveTasks(st, tasks)
    ensures IsActiveTask(Sync(st, UpdatedAll(tasks, ops)), u) <==> u in UpdatedAll(tasks, ops) && !HasSucceeded(u)
  {
    var us := UpdatedAll(tasks, ops);
    var st' := Sync(st, us);
    forall t | t in tasks ensures t.IsBrokerTask() || t.IsVolumeTask() {
      ActiveTaskCell(st, t);
    }
    UpdatedKeepsSlots(tasks, ops);
    SyncSpec(st, us);
    hide Read, Sync, HasSucceeded, IsActiveTask, CellOf, Updated;
    if u in us {
      var i :| 0 <= i < |us| && us[i] == u;
      assert tasks[i] in tasks && u == Updated(tasks[i], ops);
      CellOfUpdated(st, us, tasks[i], u, ops);
      UpdatedIsActive(st, st', tasks[i], ops);
    }
    if IsActiveTask(st', u) && u !in us {
      TaskAtSpec(us, SlotOf(u));
      if TaskAt(us, SlotOf(u)).None? {
        ActiveFromCell(st', st, u);
        UpdatedIsListed(tasks, ops, u);
        assert false;
      } else {
        var w := TaskAt(us, SlotOf(u)).value;
        var i :| 0 <= i < |us| && us[i] == w;
        assert tasks[i] in tasks && w == Updated(tasks[i], ops);
        CellOfUpdated(st, us, tasks[i], w, ops);
        SameCellSameTask(st, st', tasks[i], u, ops);
        assert false;
      }
    }
  }

  lemma UpdatedIsListed(tasks: seq<TrackedTask>, ops: map<string, Operation>, t: TrackedTask)
    requires t in tasks
    ensures Updated(t, ops) in UpdatedAll(tasks, ops) && SlotOf(Updated(t, ops)) == SlotOf(t)
  {
    var i :| 0 <= i < |tasks| && tasks[i] == t;
    assert UpdatedAll(tasks, ops)[i] == Updated(t, ops);
    UpdatedFrame(t, ops);
  }

  lemma CellOfUpdated(st: Status, us: seq<TrackedTask>, t: TrackedTask, u: TrackedTask, ops: map<string, Operation>)
    requires AreTasks(us) && DistinctSlots(us) && u in us && u == Updated(t, ops) && IsActiveTask(st, t)
    ensures Read(Sync(st, us), SlotOf(u)) == Some(CellOf(u)) && SlotOf(u) == SlotOf(t)
  {
    UpdatedFrame(t, ops);
    ActiveTaskCell(st, t);
    SyncSpec(st, us);
    TaskAtSpec(us, SlotOf(u));
    DistinctMeansEqual(us, TaskAt(us, SlotOf(u)).value, u);
  }

  lemma SameCellSameTask(st: Status, st': Status, t: TrackedTask, u: TrackedTask, ops: map<string, Operation>)
    requires IsActiveTask(st, t) && IsActiveTask(st', u)
    requires SlotOf(u) == SlotOf(t) && Read(st', SlotOf(t)) == Some(CellOf(Updated(t, ops)))
    ensures u == Updated(t, ops)
  {
    ActiveTaskCell(st, t);
    ActiveTaskCell(st', u);
    UpdatedFrame(t, ops);
  }
}
