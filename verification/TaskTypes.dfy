/**
 The part of a KafkaCluster's status that tracks Cruise Control tasks, and the
 tasks extracted from it, on values.
 */
module TaskTypes {
  import opened Wrappers
  import opened OperationTypes

  datatype Phase = Required | Scheduled | Running | Succeeded | FailedPhase | PausedPhase

  /** GracefulUpscale*, GracefulDownscale*, or any other state. */
  datatype BrokerState = Upscale(phase: Phase) | Downscale(phase: Phase) | OtherBrokerState(text: string) {
    predicate IsRunningState() {
      !OtherBrokerState? && phase in {Running, FailedPhase, PausedPhase, Scheduled}
    }

    predicate IsRequiredState() {
      !OtherBrokerState? && phase == Required
    }

    predicate IsActive() {
      IsRunningState() || IsRequiredState()
    }
  }

  /** GracefulDiskRebalance*, GracefulDiskRemoval*, or any other state. */
  datatype VolumeState = DiskRebalance(phase: Phase) | DiskRemoval(phase: Phase) | OtherVolumeState(text: string) {
    predicate IsRebalance() {
      DiskRebalance? && phase != Succeeded
    }

    predicate IsRemoval() {
      DiskRemoval? && phase != Succeeded
    }

    predicate IsRequiredState() {
      !OtherVolumeState? && phase == Required
    }
  }

  datatype VolumeStatus = VolumeStatus(state: VolumeState, ref: Option<string>)

  /** `rest` stands for the fields of a broker's status that the tracker does not touch. */
  datatype BrokerStatus = BrokerStatus(
    state: BrokerState,
    ref: Option<string>,
    volumes: map<string, VolumeStatus>,
    rest: string)

  type Status = map<string, BrokerStatus>

  datatype TrackedTask = TrackedTask(
    broker: string,
    brokerState: BrokerState,
    volume: string,
    volumeState: VolumeState,
    kind: Kind,
    ref: Option<string>)
  {
    predicate IsBrokerTask() {
      kind == AddBroker || kind == RemoveBroker
    }

    predicate IsVolumeTask() {
      kind == Rebalance || kind == RemoveDisks
    }

    /** The task must be scheduled. */
    predicate IsRequired() {
      (IsBrokerTask() && brokerState.IsRequiredState()) || (IsVolumeTask() && volumeState.IsRequiredState())
    }
  }

  const NO_BROKER_STATE := OtherBrokerState("")
  const NO_VOLUME_STATE := OtherVolumeState("")

  // ---------------------------------------------------------------------------
  // From the status to tasks

  function BrokerKind(s: BrokerState): Kind {
    if s.Upscale? then AddBroker else RemoveBroker
  }

  function BrokerTask(b: string, st: BrokerStatus): TrackedTask {
    TrackedTask(b, st.state, "", NO_VOLUME_STATE, BrokerKind(st.state), st.ref)
  }

  predicate HasVolumeTask(v: VolumeStatus) {
    v.state.IsRebalance() || v.state.IsRemoval()
  }

  function VolumeTask(b: string, path: string, v: VolumeStatus): TrackedTask {
    TrackedTask(b, NO_BROKER_STATE, path, v.state, if v.state.IsRebalance() then Rebalance else RemoveDisks, v.ref)
  }

  /** The tasks the tracker has to take care of. */
  ghost predicate IsActiveTask(st: Status, t: TrackedTask) {
    t.broker in st &&
    (|| (st[t.broker].state.IsActive() && t == BrokerTask(t.broker, st[t.broker]))
     || (t.volume in st[t.broker].volumes && HasVolumeTask(st[t.broker].volumes[t.volume]) &&
         t == VolumeTask(t.broker, t.volume, st[t.broker].volumes[t.volume])))
  }

  // ---------------------------------------------------------------------------
  // From tasks to the status

  function Apply(st: Status, t: TrackedTask): Status {
    if t.broker !in st then st
    else if t.IsBrokerTask() then st[t.broker := st[t.broker].(state := t.brokerState, ref := t.ref)]
    else if t.IsVolumeTask() && t.volume in st[t.broker].volumes then
      st[t.broker := st[t.broker].(volumes := st[t.broker].volumes[t.volume := VolumeStatus(t.volumeState, t.ref)])]
    else st
  }

  function Sync(st: Status, tasks: seq<TrackedTask>): Status {
    if tasks == [] then st else Apply(Sync(st, tasks[..|tasks| - 1]), tasks[|tasks| - 1])
  }

  // ---------------------------------------------------------------------------
  // From operations to tasks

  /** The phase an operation's state stands for; a missing operation counts as succeeded. */
  function PhaseOf(op: Option<Operation>): Phase {
    if op.None? then Succeeded
    else if op.value.spec.errorPolicy == Ignore && op.value.CurrentTaskState() == CompletedWithError then Succeeded
    else if op.value.meta.paused && op.value.CurrentTaskState() == CompletedWithError then PausedPhase
    else match op.value.CurrentTaskState()
      case Active => Running
      case InExecution => Running
      case Completed => Succeeded
      case CompletedWithError => FailedPhase
      case NoState => Scheduled
  }

  function FromResult(t: TrackedTask, op: Option<Operation>): TrackedTask {
    match t.kind
    case AddBroker => t.(brokerState := Upscale(PhaseOf(op)))
    case RemoveBroker => t.(brokerState := Downscale(PhaseOf(op)))
    case RemoveDisks => t.(volumeState := DiskRemoval(PhaseOf(op)))
    case Rebalance => t.(volumeState := DiskRebalance(PhaseOf(op)))
    case _ => t
  }

  /** A task without a reference to an operation is left alone. */
  function Updated(t: TrackedTask, ops: map<string, Operation>): TrackedTask {
    if t.ref.None? then t
    else FromResult(t, if t.ref.value in ops then Some(ops[t.ref.value]) else None)
  }

  function UpdatedAll(tasks: seq<TrackedTask>, ops: map<string, Operation>): seq<TrackedTask> {
    seq(|tasks|, i requires 0 <= i < |tasks| => Updated(tasks[i], ops))
  }

  predicate HasSucceeded(t: TrackedTask) {
    if t.IsBrokerTask() then !t.brokerState.OtherBrokerState? && t.brokerState.phase == Succeeded
    else !t.volumeState.OtherVolumeState? && t.volumeState.phase == Succeeded
  }
}
