/** Which tracked tasks one reconcile hands over to a new operation, on values. */
module TaskScheduling {
  import opened Wrappers
  import opened OperationTypes
  import opened TaskTypes
  import opened TaskTracking

  function Scheduled(t: TrackedTask, ref: string): TrackedTask {
    match t.kind
    case AddBroker => t.(brokerState := Upscale(Phase.Scheduled), ref := Some(ref))
    case RemoveBroker => t.(brokerState := Downscale(Phase.Scheduled), ref := Some(ref))
    case Rebalance => t.(volumeState := DiskRebalance(Phase.Scheduled), ref := Some(ref))
    case RemoveDisks => t.(volumeState := DiskRemoval(Phase.Scheduled), ref := Some(ref))
    case _ => t.(ref := Some(ref))
  }

  predicate IsWaiting(t: TrackedTask, kind: Kind) {
    t.kind == kind && t.IsRequired()
  }

  predicate HasWaiting(tasks: seq<TrackedTask>, kind: Kind) {
    exists i :: 0 <= i < |tasks| && IsWaiting(tasks[i], kind)
  }

  /** New brokers first, then leaving brokers, then leaving disks, then new disks. */
  function NextKind(tasks: seq<TrackedTask>): Option<Kind> {
    if HasWaiting(tasks, AddBroker) then Some(AddBroker)
    else if HasWaiting(tasks, RemoveBroker) then Some(RemoveBroker)
    else if HasWaiting(tasks, RemoveDisks) then Some(RemoveDisks)
    else if HasWaiting(tasks, Rebalance) then Some(Rebalance)
    else None
  }

  /** Brokers leave one at a time; any other kind of task is scheduled for all brokers at once. */
  ghost predicate IsPicked(tasks: seq<TrackedTask>, kind: Kind, i: nat)
    requires i < |tasks|
  {
    IsWaiting(tasks[i], kind) && (kind == RemoveBroker ==> forall j :: 0 <= j < i ==> !IsWaiting(tasks[j], kind))
  }

  ghost function ScheduledAll(tasks: seq<TrackedTask>, kind: Kind, ref: string): seq<TrackedTask> {
    seq(|tasks|, i requires 0 <= i < |tasks| => if IsPicked(tasks, kind, i) then Scheduled(tasks[i], ref) else tasks[i])
  }

  /** The tasks after a reconcile that may have created the operation `ref`. */
  ghost function ScheduledNext(tasks: seq<TrackedTask>, ref: Option<string>): seq<TrackedTask> {
    if NextKind(tasks).None? || ref.None? then tasks else ScheduledAll(tasks, NextKind(tasks).value, ref.value)
  }

  /** An operation is shared only by tasks of one kind, and no task loses an operation it already has. */
  lemma SchedulingIsExclusive(tasks: seq<TrackedTask>, ref: string, i: nat, j: nat)
    requires i < |tasks| && j < |tasks|
    requires forall t :: t in tasks ==> t.ref != Some(ref)
    ensures
      var after := ScheduledNext(tasks, Some(ref));
      && (after[i].ref == Some(ref) && after[j].ref == Some(ref) ==>
            after[i].kind == after[j].kind && (after[i].kind == RemoveBroker ==> i == j))
      && (!tasks[i].IsRequired() ==> after[i] == tasks[i])
  {
  }

  /** A waiting task stays waiting only behind a kind that goes first, or behind another leaving broker. */
  lemma WaitingIsBehind(tasks: seq<TrackedTask>, ref: string, i: nat)
    requires i < |tasks| && tasks[i].IsRequired()
    ensures NextKind(tasks).Some?
    ensures
      var after := ScheduledNext(tasks, Some(ref));
      var kind := NextKind(tasks).value;
      after[i].IsRequired() <==>
        tasks[i].kind != kind || (kind == RemoveBroker && exists j :: 0 <= j < i && IsWaiting(tasks[j], kind))
  {
    assert IsWaiting(tasks[i], tasks[i].kind);
  }

  /** No task of these kinds waits. */
  ghost predicate NoneWaits(tasks: seq<TrackedTask>, kinds: set<Kind>) {
    forall t, k :: t in tasks && k in kinds ==> !IsWaiting(t, k)
  }

  ghost predicate IsBehindAnother(tasks: seq<TrackedTask>, i: nat)
    requires i < |tasks|
  {
    exists j :: 0 <= j < i && IsWaiting(tasks[j], RemoveBroker)
  }

  /**
   The order of the switch: a new broker always goes; a leaving broker unless a
   new one waits, and one at a time; a leaving disk unless a broker waits; a new
   disk unless any of these waits.  Whatever does not go stays as it is.
   */
  lemma SwitchOrder(tasks: seq<TrackedTask>, ref: string, i: nat)
    requires i < |tasks|
    ensures
      var t, after := tasks[i], ScheduledNext(tasks, Some(ref));
      && |after| == |tasks|
      && (IsWaiting(t, AddBroker) ==> after[i] == t.(brokerState := Upscale(Phase.Scheduled), ref := Some(ref)))
      && (IsWaiting(t, RemoveBroker) ==>
            after[i] ==
            if NoneWaits(tasks, {AddBroker}) && !IsBehindAnother(tasks, i)
            then t.(brokerState := Downscale(Phase.Scheduled), ref := Some(ref)) else t)
      && (IsWaiting(t, RemoveDisks) ==>
            after[i] ==
            if NoneWaits(tasks, {AddBroker, RemoveBroker})
            then t.(volumeState := DiskRemoval(Phase.Scheduled), ref := Some(ref)) else t)
      && (IsWaiting(t, Rebalance) ==>
            after[i] ==
            if NoneWaits(tasks, {AddBroker, RemoveBroker, RemoveDisks})
            then t.(volumeState := DiskRebalance(Phase.Scheduled), ref := Some(ref)) else t)
      && (!t.IsRequired() ==> after[i] == t)
  {
    WaitsOrNot(tasks);
    assert forall k :: IsWaiting(tasks[i], k) ==> HasWaiting(tasks, k);
  }

  lemma WaitsOrNot(tasks: seq<TrackedTask>)
    ensures forall kinds :: NoneWaits(tasks, kinds) <==> forall k :: k in kinds ==> !HasWaiting(tasks, k)
  {
    forall kinds ensures NoneWaits(tasks, kinds) <==> forall k :: k in kinds ==> !HasWaiting(tasks, k) {
      if !NoneWaits(tasks, kinds) {
        var t, k :| t in tasks && k in kinds && IsWaiting(t, k);
        var j :| 0 <= j < |tasks| && tasks[j] == t;
        assert HasWaiting(tasks, k);
      }
    }
  }

  /** Scheduling keeps every task in its slot, so it can be written back like any update. */
  lemma SchedulingKeepsSlots(tasks: seq<TrackedTask>, ref: Option<string>)
    requires AreTasks(tasks) && DistinctSlots(tasks)
    ensures AreTasks(ScheduledNext(tasks, ref)) && DistinctSlots(ScheduledNext(tasks, ref))
  {
    var after := ScheduledNext(tasks, ref);
    forall i | 0 <= i < |after|
      ensures SlotOf(after[i]) == SlotOf(tasks[i]) && after[i].kind == tasks[i].kind && tasks[i] in tasks
    {
    }
  }
}
