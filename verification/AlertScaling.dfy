/**
 Scaling a cluster on alerts: the store of alerts and the spec changes that
 handling an alert makes, on values.  Every cluster keeps all versions of its
 spec.  A handling reads the spec several times, possibly from a stale cache, and
 other writers may change it in between.
 */
module AlertScaling {
  import opened Wrappers
  import opened ApiServer
  import opened ScaleParameters

  // ---------------------------------------------------------------------------
  // Specs

  datatype Broker = Broker(id: int, config: string)

  /** The limits of the alert manager's config. */
  datatype Limits = Limits(down: int, up: int)

  datatype Spec = Spec(brokers: seq<Broker>, limits: Option<Limits>)

  const BROKER_ID_LIMIT := 65535

  /** What the API server demands of broker ids. */
  predicate IsAdmitted(s: Spec) {
    forall i :: 0 <= i < |s.brokers| ==> 0 <= s.brokers[i].id < BROKER_ID_LIMIT
  }

  /** The highest broker id, or 0. */
  function Biggest(brokers: seq<Broker>): (r: int)
    ensures r >= 0 && forall i :: 0 <= i < |brokers| ==> brokers[i].id <= r
    ensures r == 0 || exists i :: 0 <= i < |brokers| && brokers[i].id == r
  {
    if brokers == [] then 0
    else
      var front, last := Biggest(brokers[..|brokers| - 1]), brokers[|brokers| - 1].id;
      if last > front then last else front
  }

  /** A broker id as it is written; ids of the spec are not negative. */
  function IdText(id: int): string {
    if id >= 0 then Itoa(id) else "-" + Itoa(-id)
  }

  function Without(brokers: seq<Broker>, id: string): seq<Broker> {
    if brokers == [] then []
    else
      var front, last := Without(brokers[..|brokers| - 1], id), brokers[|brokers| - 1];
      if IdText(last.id) != id then front + [last] else front
  }

  // ---------------------------------------------------------------------------
  // Alerts

  /**
   `cluster`: the kafka_cr label; `claim`: the cluster of the volume claim the
   alert is about; `broker`: the broker label.
   */
  datatype Alert = Alert(
    command: string,
    cluster: Option<string>,
    claim: Option<string>,
    broker: Option<string>,
    processed: bool)

  /** What handling a claim command comes to; new configs for the brokers, in order. */
  datatype ClaimOutcome = ClaimFailed | ClaimSkipped | ClaimChanged(configs: seq<string>)

  // ---------------------------------------------------------------------------
  // Versions of specs

  datatype World = World(clusters: map<string, seq<Spec>>, alerts: map<string, Alert>)

  function Current(history: seq<Spec>): Spec
    requires history != []
  {
    history[|history| - 1]
  }

  function ReadSpec(w: World, name: string, version: Option<nat>): Option<Spec> {
    if name !in w.clusters || version.None? || version.value >= |w.clusters[name]| then None
    else Some(w.clusters[name][version.value])
  }

  /** A version that has not been replaced. */
  predicate IsLatest(w: World, name: string, version: nat) {
    name in w.clusters && version + 1 == |w.clusters[name]|
  }

  function Added(w: World, name: string, spec: Spec): World
    requires name in w.clusters
  {
    w.(clusters := w.clusters[name := w.clusters[name] + [spec]])
  }

  /** A change of a spec that somebody else makes. */
  datatype Write = Write(cluster: string, spec: Spec)

  predicate TakesEffect(w: World, x: Write) {
    x.cluster in w.clusters && IsAdmitted(x.spec)
  }

  function WriteAll(w: World, writes: seq<Write>): World {
    if writes == [] then w
    else
      var front, last := WriteAll(w, writes[..|writes| - 1]), writes[|writes| - 1];
      if TakesEffect(front, last) then Added(front, last.cluster, last.spec) else front
  }

  // ---------------------------------------------------------------------------
  // What one handling finds

  /**
   One attempt to write the status of the cluster that was read: what others
   write before it, the version that was read, or None when the read fails,
   whether the write conflicts with another write of the status, and what becomes
   of it.  A status that is not found is replaced by an update of the whole
   object, which is refused on an outdated version alike.
   */
  datatype Attempt = Attempt(others: seq<Write>, read: Option<nat>, conflicts: bool, delivery: Delivery)

  /**
   The two attempts to write the status, the second after a conflict; what others
   write between the check of the limits and the change; and the versions that
   the plan and the change read.
   */
  datatype Circumstances = Circumstances(
    first: Attempt,
    again: Attempt,
    running: bool,
    between: seq<Write>,
    planned: Option<nat>,
    busy: bool,                 // some broker has a pending or running Cruise Control task
    leastLoaded: Option<string>,
    newConfig: string,
    claim: ClaimOutcome,
    changed: Option<nat>,
    written: Delivery)          // what becomes of the write of the spec

  datatype StatusReply = StatusFailed | StatusConflict | StatusWritten(spec: Spec)

  /** The write of the status is refused when it is made from an outdated version. */
  function WriteStatus(w: World, name: string, at: Attempt): StatusReply {
    var spec := ReadSpec(w, name, at.read);
    if spec.None? || at.delivery != Handled then StatusFailed
    else if at.conflicts || !IsLatest(w, name, at.read.value) then StatusConflict
    else StatusWritten(spec.value)
  }

  /** Reads the cluster and writes its status, at most twice; the spec that was read when the status was written. */
  function Check(w: World, name: string, c: Circumstances): (World, Option<Spec>) {
    var w1 := WriteAll(w, c.first.others);
    match WriteStatus(w1, name, c.first)
    case StatusWritten(spec) => (w1, Some(spec))
    case StatusFailed => (w1, None)
    case StatusConflict =>
      var w2 := WriteAll(w1, c.again.others);
      var reply := WriteStatus(w2, name, c.again);
      (w2, if reply.StatusWritten? then Some(reply.spec) else None)
  }

  // ---------------------------------------------------------------------------
  // Changes of the spec

  datatype Reply = Error | Skipped | Processed

  /** The state afterwards, what is reported, and whether the spec was changed. */
  datatype Result = Result(world: World, reply: Reply, changed: bool)

  /**
   Commits a spec made from the given version, unless that version is outdated or
   the spec is refused; an answer that is lost looks like an error.
   */
  function Commit(w: World, name: string, version: nat, spec: Spec, written: Delivery): Result {
    if !IsLatest(w, name, version) || !IsAdmitted(spec) || !written.TakesEffect() then Result(w, Error, false)
    else Result(Added(w, name, spec), if written == Handled then Processed else Error, true)
  }

  function DownScale(w: World, name: string, a: Alert, c: Circumstances): Result {
    var plan := ReadSpec(w, name, c.planned);
    if plan.None? then Result(w, Error, false)
    else if c.busy then Result(w, Processed, false)
    else
      var id := if a.broker.Some? then a.broker else c.leastLoaded;
      var base := ReadSpec(w, name, c.changed);
      if id.None? || base.None? then Result(w, Error, false)
      else Commit(w, name, c.changed.value, base.value.(brokers := Without(base.value.brokers, id.value)), c.written)
  }

  function UpScale(w: World, name: string, c: Circumstances): Result {
    var plan := ReadSpec(w, name, c.planned);
    if plan.None? then Result(w, Error, false)
    else if c.busy then Result(w, Processed, false)
    else
      var broker := Broker(Biggest(plan.value.brokers) + 1, c.newConfig);
      var base := ReadSpec(w, name, c.changed);
      if base.None? then Result(w, Error, false)
      else Commit(w, name, c.changed.value, base.value.(brokers := base.value.brokers + [broker]), c.written)
  }

  /** The brokers with new configs. */
  function Reconfigured(brokers: seq<Broker>, configs: seq<string>): seq<Broker> {
    seq(|brokers|, i requires 0 <= i < |brokers| =>
          if i < |configs| then brokers[i].(config := configs[i]) else brokers[i])
  }

  function ChangeClaims(w: World, a: Alert, c: Circumstances): Result {
    if a.claim.None? || c.claim.ClaimFailed? then Result(w, Error, false)
    else if c.claim.ClaimSkipped? then Result(w, Processed, false)
    else
      var base := ReadSpec(w, a.claim.value, c.changed);
      if base.None? then Result(w, Error, false)
      else Commit(w, a.claim.value, c.changed.value,
                  base.value.(brokers := Reconfigured(base.value.brokers, c.claim.configs)), c.written)
  }

  predicate DownDisabled(s: Spec) {
    s.limits.Some? && |s.brokers| <= s.limits.value.down
  }

  predicate UpDisabled(s: Spec) {
    s.limits.Some? && s.limits.value.up > 0 && |s.brokers| >= s.limits.value.up
  }

  const ADD_PVC := "addPvc"
  const RESIZE_PVC := "resizePvc"
  const DOWN_SCALE := "downScale"
  const UP_SCALE := "upScale"
  const TESTING := "testing"

  function Process(w: World, a: Alert, c: Circumstances, downDisabled: bool, upDisabled: bool): Result {
    if a.command == ADD_PVC || a.command == RESIZE_PVC then ChangeClaims(w, a, c)
    else if a.command == DOWN_SCALE then
      if a.cluster.None? then Result(w, Error, false)
      else if downDisabled then Result(w, Skipped, false)
      else DownScale(w, a.cluster.value, a, c)
    else if a.command == UP_SCALE then
      if a.cluster.None? then Result(w, Error, false)
      else if upDisabled then Result(w, Skipped, false)
      else UpScale(w, a.cluster.value, c)
    else if a.command == TESTING then Result(w, Processed, false)
    else Result(w, Skipped, false)
  }

  /** The cluster that an alert is about. */
  function NameOf(a: Alert): Option<string> {
    if a.cluster.Some? then a.cluster else a.claim
  }

  function Examine(w: World, a: Alert, c: Circumstances): Result {
    if NameOf(a).None? then Result(w, Error, false)
    else
      var (w1, spec) := Check(w, NameOf(a).value, c);
      if spec.None? then Result(w1, Error, false)
      else if !c.running then Result(w1, Skipped, false)
      else Process(WriteAll(w1, c.between), a, c, DownDisabled(spec.value), UpDisabled(spec.value))
  }

  // ---------------------------------------------------------------------------
  // Runs

  /** An alert arrives, firing or resolved; a stored alert is handled; or somebody else changes a spec. */
  datatype Event =
    | Deliver(alert: string, content: Alert, resolved: bool)
    | Handle(alert: string, found: Circumstances)
    | Foreign(write: Write)

  /** Handling a stored alert examines it, unless it is processed. */
  predicate IsPending(w: World, fp: string) {
    fp in w.alerts && !w.alerts[fp].processed
  }

  function HandleAlert(w: World, fp: string, c: Circumstances): World {
    if !IsPending(w, fp) then w
    else
      var r := Examine(w, w.alerts[fp], c);
      if r.reply == Error then r.world
      else r.world.(alerts := r.world.alerts[fp := w.alerts[fp].(processed := r.reply == Processed)])
  }

  function DeliverAlert(w: World, fp: string, a: Alert, resolved: bool): World {
    var alerts := if fp in w.alerts then w.alerts else w.alerts[fp := a.(processed := false)];
    w.(alerts := if resolved then alerts - {fp} else alerts)
  }

  function Next(w: World, e: Event): World {
    match e
    case Deliver(fp, a, resolved) => DeliverAlert(w, fp, a, resolved)
    case Handle(fp, c) => HandleAlert(w, fp, c)
    case Foreign(x) => WriteAll(w, [x])
  }

  function After(w: World, events: seq<Event>): World {
    if events == [] then w else Next(After(w, events[..|events| - 1]), events[|events| - 1])
  }
}
