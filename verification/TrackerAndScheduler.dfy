/**
 The two controllers together: what the task tracker writes into a cluster's
 status says where the scheduler has the operation.
 */
module TrackerAndScheduler {
  import opened Wrappers
  import opened OperationTypes
  import opened OperationQueues
  import opened ReconcileStep
  import opened SchedulerWorld
  import opened SchedulerInvariant
  import opened SchedulerSafety
  import opened SchedulerWeights
  import opened SchedulerDraining
  import TaskTypes

  /** The phase that the tracker shows for an operation. */
  function Shown(op: Operation): TaskTypes.Phase {
    TaskTypes.PhaseOf(Some(op))
  }

  lemma PhaseOfRecord(op: Operation, cc: CruiseControl, clock: int, attempts: seq<Task>, runs: seq<Timing>)
    requires op.IsValid() && RecordOk(op, cc, clock, attempts, runs)
    ensures Shown(op) == TaskTypes.Scheduled <==> Classify(op) == Some(First)
    ensures Shown(op) == TaskTypes.Running <==> Classify(op) in {Some(ForStop), Some(InProgress)}
    ensures Shown(op) == TaskTypes.FailedPhase <==> Classify(op) == Some(ForRetry)
    ensures Shown(op) in {TaskTypes.PausedPhase, TaskTypes.Succeeded} <==> Classify(op).None?
    ensures Classify(op).None? <==> op.IsDone()
    ensures Shown(op) == TaskTypes.Succeeded <==> op.IsFinished()
  {
  }

  /**
   In every reachable state the phase that the tracker shows for a supported
   operation tells its queue: scheduled when it waits for its first execution,
   running when it runs or is to be stopped, failed when it waits for a retry,
   succeeded or paused when the scheduler is done with it.
   */
  lemma PhaseTellsQueue(w: World, events: seq<Event>, name: string)
    requires IsInitial(w) && IsRun(w, events)
    requires name in Play(w, events).ops && Play(w, events).ops[name].IsValid()
    ensures
      var op := Play(w, events).ops[name];
      && (Shown(op) == TaskTypes.Scheduled <==> Classify(op) == Some(First))
      && (Shown(op) == TaskTypes.Running <==> Classify(op) in {Some(ForStop), Some(InProgress)})
      && (Shown(op) == TaskTypes.FailedPhase <==> Classify(op) == Some(ForRetry))
      && (Shown(op) in {TaskTypes.PausedPhase, TaskTypes.Succeeded} <==> Classify(op).None?)
      && (Shown(op) == TaskTypes.Succeeded <==> op.IsFinished())
  {
    InitialInv(w);
    RunKeeps(w, events);
    var w' := Play(w, events);
    PhaseOfRecord(w'.ops[name], w'.cc, w'.clock, Of(w'.attempts, name), Of(w'.runs, name));
  }

  /** The tracker shows one of the running phases for at most one operation of a cluster that is not a stop. */
  lemma AtMostOneShownRunning(w: World, events: seq<Event>, a: string, b: string)
    requires IsInitial(w) && IsRun(w, events)
    requires a in Play(w, events).ops && b in Play(w, events).ops
    requires
      var x, y := Play(w, events).ops[a], Play(w, events).ops[b];
      && x.IsValid() && y.IsValid() && x.meta.cluster == y.meta.cluster
      && x.CurrentTaskKind() != StopExecution && y.CurrentTaskKind() != StopExecution
      && Shown(x) == TaskTypes.Running && Shown(y) == TaskTypes.Running
    ensures a == b
  {
    InitialInv(w);
    RunKeeps(w, events);
    var w' := Play(w, events);
    RunningOccupies(w'.ops[a], w'.cc, w'.clock, Of(w'.attempts, a), Of(w'.runs, a));
    RunningOccupies(w'.ops[b], w'.cc, w'.clock, Of(w'.attempts, b), Of(w'.runs, b));
    AtMostOneRunning(w, events, a, b);
  }

  lemma RunningOccupies(op: Operation, cc: CruiseControl, clock: int, attempts: seq<Task>, runs: seq<Timing>)
    requires op.IsValid() && RecordOk(op, cc, clock, attempts, runs)
    requires Shown(op) == TaskTypes.Running && op.CurrentTaskKind() != StopExecution
    ensures Occupies(op)
  {
  }

  /**
   Once the scheduler has drained, a tracked task of the cluster, updated from
   its operation, has succeeded or is paused.
   */
  lemma DrainedTasksAreSettled(start: World, events: seq<Event>, rounds: seq<Round>, names: seq<string>,
                               cluster: string, task: TaskTypes.TrackedTask)
    requires IsInitial(start) && IsRun(start, events)
    requires
      var w := Play(start, events);
      && Quiet(w.ops, cluster) && IsFairRun(w, rounds, cluster) && Covers(names, w.ops, cluster)
      && |rounds| >= Measure(w.ops, names, cluster)
    requires task.ref.Some? && (task.IsBrokerTask() || task.IsVolumeTask())
    requires
      var ops := PlayRounds(Play(start, events), rounds, cluster).ops;
      task.ref.value in ops ==> ops[task.ref.value].meta.cluster == cluster && ops[task.ref.value].IsValid()
    ensures
      var after := TaskTypes.Updated(task, PlayRounds(Play(start, events), rounds, cluster).ops);
      TaskTypes.HasSucceeded(after) ||
      (if after.IsBrokerTask() then after.brokerState.phase else after.volumeState.phase) == TaskTypes.PausedPhase
  {
    QueueDrains(start, events, rounds, names, cluster);
    var ops := PlayRounds(Play(start, events), rounds, cluster).ops;
    DoneMeansSettled(task, ops);
  }

  lemma DoneMeansSettled(task: TaskTypes.TrackedTask, ops: Store)
    requires task.ref.Some? && (task.IsBrokerTask() || task.IsVolumeTask())
    requires task.ref.value in ops ==> ops[task.ref.value].IsDone()
    ensures
      var after := TaskTypes.Updated(task, ops);
      && (after.IsBrokerTask() ==> !after.brokerState.OtherBrokerState?)
      && (!after.IsBrokerTask() ==> !after.volumeState.OtherVolumeState?)
      && (TaskTypes.HasSucceeded(after) ||
          (if after.IsBrokerTask() then after.brokerState.phase else after.volumeState.phase) == TaskTypes.PausedPhase)
  {
  }
}
