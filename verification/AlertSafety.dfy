/** Laws of scaling on alerts, over every sequence of deliveries and handlings. */
module AlertSafety {
  import opened Wrappers
  import opened ApiServer
  import opened ScaleParameters
  import opened AlertScaling

  // ---------------------------------------------------------------------------
  // Specs

  ghost predicate DistinctIds(brokers: seq<Broker>) {
    forall i, j :: 0 <= i < j < |brokers| ==> brokers[i].id != brokers[j].id
  }

  lemma IdTextIsInjective(a: int, b: int)
    requires a >= 0 && b >= 0 && IdText(a) == IdText(b)
    ensures a == b
  {
    ItoaSpec(a);
    ItoaSpec(b);
  }

  lemma {:induction false} WithoutMembers(brokers: seq<Broker>, id: string)
    ensures forall b :: b in Without(brokers, id) <==> b in brokers && IdText(b.id) != id
  {
    if brokers != [] {
      WithoutMembers(brokers[..|brokers| - 1], id);
      assert brokers == brokers[..|brokers| - 1] + [brokers[|brokers| - 1]];
    }
  }

  lemma {:induction false} WithoutNone(brokers: seq<Broker>, id: string)
    requires forall i :: 0 <= i < |brokers| ==> IdText(brokers[i].id) != id
    ensures Without(brokers, id) == brokers
  {
    hide IdText;
    if brokers != [] {
      var front, last := brokers[..|brokers| - 1], brokers[|brokers| - 1];
      assert forall i :: 0 <= i < |front| ==> front[i] == brokers[i];
      WithoutNone(front, id);
      assert brokers == front + [last];
    }
  }

  /** Removing a broker removes at most one, when the ids are distinct. */
  lemma {:induction false} WithoutSpec(brokers: seq<Broker>, id: string)
    requires DistinctIds(brokers) && forall i :: 0 <= i < |brokers| ==> brokers[i].id >= 0
    ensures DistinctIds(Without(brokers, id))
    ensures |brokers| - 1 <= |Without(brokers, id)| <= |brokers|
  {
    if brokers != [] {
      var front, last := brokers[..|brokers| - 1], brokers[|brokers| - 1];
      if IdText(last.id) == id {
        forall i | 0 <= i < |front| ensures IdText(front[i].id) != id {
          assert front[i].id != last.id;
          if IdText(front[i].id) == IdText(last.id) {
            IdTextIsInjective(front[i].id, last.id);
          }
        }
        WithoutNone(front, id);
      } else {
        WithoutSpec(front, id);
        WithoutMembers(front, id);
        hide IdText;
        var rest := Without(front, id);
        forall i | 0 <= i < |rest| ensures rest[i].id != last.id {
          assert rest[i] in rest;
          var k :| 0 <= k < |front| && front[k] == rest[i];
          assert brokers[k] == rest[i];
        }
      }
    }
  }

  ghost predicate Good(s: Spec) {
    IsAdmitted(s) && DistinctIds(s.brokers)
  }

  /** The number of brokers lies between the limits that are set. */
  predicate WithinLimits(s: Spec) {
    s.limits.Some? ==>
      s.limits.value.down <= |s.brokers| && (s.limits.value.up > 0 ==> |s.brokers| <= s.limits.value.up)
  }

  /** s' is what one handling may turn s into. */
  ghost predicate IsStep(s: Spec, s': Spec) {
    && Good(s') && s'.limits == s.limits
    && |s.brokers| - 1 <= |s'.brokers| <= |s.brokers| + 1
    && (|s'.brokers| < |s.brokers| ==> !DownDisabled(s))
    && (|s'.brokers| > |s.brokers| ==> !UpDisabled(s))
  }

  lemma DownScaleStep(s: Spec, id: string)
    requires Good(s) && !DownDisabled(s)
    ensures IsStep(s, s.(brokers := Without(s.brokers, id)))
  {
    WithoutSpec(s.brokers, id);
    WithoutMembers(s.brokers, id);
    hide IdText, Without;
    var after := Without(s.brokers, id);
    forall i | 0 <= i < |after| ensures 0 <= after[i].id < BROKER_ID_LIMIT {
      assert after[i] in after;
    }
  }

  lemma UpScaleStep(s: Spec, config: string)
    requires Good(s) && !UpDisabled(s)
    requires IsAdmitted(s.(brokers := s.brokers + [Broker(Biggest(s.brokers) + 1, config)]))
    ensures IsStep(s, s.(brokers := s.brokers + [Broker(Biggest(s.brokers) + 1, config)]))
  {
  }

  lemma ReconfiguredStep(s: Spec, configs: seq<string>)
    requires Good(s)
    ensures IsStep(s, s.(brokers := Reconfigured(s.brokers, configs)))
  {
  }

  // ---------------------------------------------------------------------------
  // What others write

  lemma WriteAllAlerts(w: World, writes: seq<Write>)
    ensures WriteAll(w, writes).alerts == w.alerts && WriteAll(w, writes).clusters.Keys == w.clusters.Keys
  {
    if writes != [] {
      WriteAllAlerts(w, writes[..|writes| - 1]);
    }
  }

  lemma {:induction false} WriteAllAppend(w: World, a: seq<Write>, b: seq<Write>)
    ensures WriteAll(WriteAll(w, a), b) == WriteAll(w, a + b)
  {
    if b == [] {
      assert a + b == a;
    } else {
      WriteAllAppend(w, a, b[..|b| - 1]);
      assert (a + b)[..|a + b| - 1] == a + b[..|b| - 1];
    }
  }

  /** Writes of other clusters do not touch the history of a cluster. */
  lemma {:induction false} WriteAllElsewhere(w: World, writes: seq<Write>, name: string)
    requires name in w.clusters && forall x :: x in writes ==> x.cluster != name
    ensures name in WriteAll(w, writes).clusters && WriteAll(w, writes).clusters[name] == w.clusters[name]
  {
    if writes != [] {
      assert writes[|writes| - 1] in writes;
      WriteAllElsewhere(w, writes[..|writes| - 1], name);
    }
  }

  // ---------------------------------------------------------------------------
  // What a handling does

  /** The limits are checked on the version that is the latest when they are checked. */
  lemma CheckedIsLatest(w: World, name: string, c: Circumstances)
    requires Check(w, name, c).1.Some?
    ensures
      var (w1, spec) := Check(w, name, c);
      name in w1.clusters && w1.clusters[name] != [] && spec.value == Current(w1.clusters[name])
  {
    hide WriteAll;
  }

  /** The version that was read when the status was written. */
  function CheckedVersion(w: World, name: string, c: Circumstances): Option<nat> {
    if WriteStatus(WriteAll(w, c.first.others), name, c.first).StatusConflict? then c.again.read else c.first.read
  }

  /** Everything that others write during a handling, as far as it gets. */
  function OthersOf(w: World, a: Alert, c: Circumstances): seq<Write> {
    if NameOf(a).None? then []
    else
      var reply := WriteStatus(WriteAll(w, c.first.others), NameOf(a).value, c.first);
      c.first.others
      + (if reply.StatusConflict? then c.again.others else [])
      + (if Check(w, NameOf(a).value, c).1.Some? && c.running then c.between else [])
  }

  /** The state in which a handling makes its change, if it makes one. */
  function BeforeChange(w: World, a: Alert, c: Circumstances): World {
    WriteAll(w, OthersOf(w, a, c))
  }

  /** The change that a handling makes in the latest version. */
  function OwnWrite(w: World, a: Alert, c: Circumstances): Option<Write> {
    var name := if a.command in {DOWN_SCALE, UP_SCALE} then a.cluster else a.claim;
    if name.None? || name.value !in w.clusters || w.clusters[name.value] == [] then None
    else
      var s, plan := Current(w.clusters[name.value]), ReadSpec(w, name.value, c.planned);
      var id := if a.broker.Some? then a.broker else c.leastLoaded;
      if a.command == UP_SCALE then
        if plan.None? then None else Some(Write(name.value, Enlarged(s, plan.value, c.newConfig)))
      else if a.command == DOWN_SCALE then
        if id.None? then None else Some(Write(name.value, s.(brokers := Without(s.brokers, id.value))))
      else if c.claim.ClaimChanged? then
        Some(Write(name.value, s.(brokers := Reconfigured(s.brokers, c.claim.configs))))
      else None
  }

  /** s with one more broker, whose id follows the highest of `plan`. */
  function Enlarged(s: Spec, plan: Spec, config: string): Spec {
    s.(brokers := s.brokers + [Broker(Biggest(plan.brokers) + 1, config)])
  }

  lemma CheckWrites(w: World, name: string, c: Circumstances)
    ensures Check(w, name, c).0 ==
      WriteAll(w, c.first.others + if WriteStatus(WriteAll(w, c.first.others), name, c.first).StatusConflict?
                                   then c.again.others else [])
  {
    WriteAllAppend(w, c.first.others, c.again.others);
    hide WriteAll, WriteStatus;
    assert c.first.others + [] == c.first.others;
  }

  /** A handling that reaches the command makes its change, or none, in the latest version. */
  lemma ProcessShape(w: World, a: Alert, c: Circumstances, down: bool, up: bool)
    ensures
      var r := Process(w, a, c, down, up);
      if r.changed then
        && OwnWrite(w, a, c).Some? && OwnWrite(w, a, c).value.cluster in w.clusters
        && r.world == Added(w, OwnWrite(w, a, c).value.cluster, OwnWrite(w, a, c).value.spec)
        && IsAdmitted(OwnWrite(w, a, c).value.spec) && c.written.TakesEffect()
        && r.reply == (if c.written == Handled then Processed else Error)
        && (a.command == UP_SCALE ==> !up) && (a.command == DOWN_SCALE ==> !down)
      else r.world == w
  {
    hide IsAdmitted, Biggest, Without, Reconfigured;
  }

  /** A handling leaves what others wrote, and its own change, if it makes one, on top of that. */
  lemma ExamineShape(w: World, a: Alert, c: Circumstances)
    ensures
      var r, w' := Examine(w, a, c), BeforeChange(w, a, c);
      && r.world.alerts == w.alerts
      && if r.changed then
           && OwnWrite(w', a, c).Some? && OwnWrite(w', a, c).value.cluster in w'.clusters
           && r.world == Added(w', OwnWrite(w', a, c).value.cluster, OwnWrite(w', a, c).value.spec)
           && IsAdmitted(OwnWrite(w', a, c).value.spec) && c.written.TakesEffect()
           && r.reply == (if c.written == Handled then Processed else Error)
         else r.world == w'
  {
    hide WriteAll, Process, OwnWrite, IsAdmitted, WriteStatus, Check;
    if NameOf(a).None? {
      WritesNothing(w);
    } else {
      var name := NameOf(a).value;
      var (w1, spec) := Check(w, name, c);
      var conflict := WriteStatus(WriteAll(w, c.first.others), name, c.first).StatusConflict?;
      var early := c.first.others + if conflict then c.again.others else [];
      CheckWrites(w, name, c);
      WriteAllAlerts(w, OthersOf(w, a, c));
      if spec.Some? && c.running {
        WriteAllAppend(w, early, c.between);
        ProcessShape(WriteAll(w1, c.between), a, c, DownDisabled(spec.value), UpDisabled(spec.value));
      } else {
        assert early + [] == early;
      }
    }
  }

  lemma WritesNothing(w: World)
    ensures WriteAll(w, []) == w
  {
  }

  /** The check lets a change of the number of brokers pass that the latest version allows. */
  lemma ChangeWasChecked(w: World, a: Alert, c: Circumstances)
    requires Examine(w, a, c).changed && a.command in {DOWN_SCALE, UP_SCALE}
    ensures a.cluster.Some?
    ensures
      var w1 := Check(w, a.cluster.value, c).0;
      && a.cluster.value in w1.clusters && w1.clusters[a.cluster.value] != []
      && (a.command == UP_SCALE ==> !UpDisabled(Current(w1.clusters[a.cluster.value])))
      && (a.command == DOWN_SCALE ==> !DownDisabled(Current(w1.clusters[a.cluster.value])))
  {
    hide WriteAll, OwnWrite, Check, UpScale, DownScale;
    CheckedIsLatest(w, NameOf(a).value, c);
  }

  /** The replaced version lets the command pass. */
  predicate MeetsLimits(s: Spec, command: string) {
    (command == UP_SCALE ==> !UpDisabled(s)) && (command == DOWN_SCALE ==> !DownDisabled(s))
  }

  /**
   A change of the number of brokers meets the limits in the version that it
   replaces, unless others wrote that cluster between the check and the change.
   */
  lemma LimitsBreakOnlyByOthers(w: World, a: Alert, c: Circumstances)
    requires Examine(w, a, c).changed && a.command in {DOWN_SCALE, UP_SCALE}
    requires forall x :: x in c.between ==> Some(x.cluster) != a.cluster
    ensures a.cluster.Some?
    ensures
      var w' := BeforeChange(w, a, c);
      && a.cluster.value in w'.clusters && w'.clusters[a.cluster.value] != []
      && MeetsLimits(Current(w'.clusters[a.cluster.value]), a.command)
  {
    ChangeWasChecked(w, a, c);
    hide WriteAll, Check, WriteStatus, Process;
    var name := a.cluster.value;
    var w1 := Check(w, name, c).0;
    var conflict := WriteStatus(WriteAll(w, c.first.others), name, c.first).StatusConflict?;
    CheckWrites(w, name, c);
    WriteAllAppend(w, c.first.others + if conflict then c.again.others else [], c.between);
    WriteAllElsewhere(w1, c.between, name);
  }

  // ---------------------------------------------------------------------------
  // Runs without another writer

  /** Nobody else writes during the event. */
  predicate IsAlone(e: Event) {
    match e
    case Deliver(_, _, _) => true
    case Handle(_, c) => c.first.others == [] && c.again.others == [] && c.between == []
    case Foreign(_) => false
  }

  lemma AloneChangesOnly(w: World, a: Alert, c: Circumstances)
    requires c.first.others == [] && c.again.others == [] && c.between == []
    ensures BeforeChange(w, a, c) == w
  {
    assert OthersOf(w, a, c) == [];
  }

  /** The number of brokers after one change, compared with before. */
  ghost predicate IsCountStep(s: Spec, s': Spec) {
    && s'.limits == s.limits && |s'.brokers| <= |s.brokers| + 1
    && (|s'.brokers| > |s.brokers| ==> !UpDisabled(s))
    && (Good(s) ==> |s.brokers| - 1 <= |s'.brokers|)
    && (|s'.brokers| < |s.brokers| ==> !DownDisabled(s))
  }

  lemma {:induction false} WithoutIsShorter(brokers: seq<Broker>, id: string)
    ensures |Without(brokers, id)| <= |brokers|
  {
    if brokers != [] {
      WithoutIsShorter(brokers[..|brokers| - 1], id);
    }
  }

  lemma OwnCountStep(w: World, a: Alert, c: Circumstances)
    requires OwnWrite(w, a, c).Some?
    ensures
      var x := OwnWrite(w, a, c).value;
      && x.cluster in w.clusters && w.clusters[x.cluster] != []
      && (a.command in {DOWN_SCALE, UP_SCALE} ==> a.cluster == Some(x.cluster))
      && (MeetsLimits(Current(w.clusters[x.cluster]), a.command) ==>
        IsCountStep(Current(w.clusters[x.cluster]), x.spec))
  {
    hide Biggest, Without;
    if a.command == DOWN_SCALE {
      var id := if a.broker.Some? then a.broker else c.leastLoaded;
      var s := Current(w.clusters[a.cluster.value]);
      WithoutIsShorter(s.brokers, id.value);
      if Good(s) {
        WithoutSpec(s.brokers, id.value);
      }
    }
  }

  /** What a handling without another writer adds to a cluster, if anything. */
  ghost predicate AddsCountStep(h: seq<Spec>, h': seq<Spec>) {
    h' == h || (h != [] && |h'| == |h| + 1 && h'[..|h|] == h && IsCountStep(Current(h), Current(h')))
  }

  lemma AloneCounts(w: World, e: Event, name: string)
    requires IsAlone(e) && name in w.clusters
    ensures name in Next(w, e).clusters && AddsCountStep(w.clusters[name], Next(w, e).clusters[name])
  {
    hide Examine, OwnWrite, IsCountStep, MeetsLimits, WriteAll, BeforeChange;
    if e.Handle? && IsPending(w, e.alert) {
      var a, c := w.alerts[e.alert], e.found;
      ExamineShape(w, a, c);
      AloneChangesOnly(w, a, c);
      if Examine(w, a, c).changed {
        OwnCountStep(w, a, c);
        OtherCommandsAreFree(OwnWrite(w, a, c).value.cluster, w, a);
        if a.command in {DOWN_SCALE, UP_SCALE} {
          LimitsBreakOnlyByOthers(w, a, c);
        }
      }
    }
  }

  lemma OtherCommandsAreFree(name: string, w: World, a: Alert)
    requires name in w.clusters && w.clusters[name] != []
    ensures a.command !in {DOWN_SCALE, UP_SCALE} ==> MeetsLimits(Current(w.clusters[name]), a.command)
  {
  }

  ghost predicate AllAlone(events: seq<Event>) {
    forall i :: 0 <= i < |events| ==> IsAlone(events[i])
  }

  /** The number of brokers does not exceed the upper limit, if one is set. */
  predicate WithinUpper(s: Spec) {
    s.limits.Some? && s.limits.value.up > 0 ==> |s.brokers| <= s.limits.value.up
  }

  lemma AfterLast(w: World, events: seq<Event>)
    requires events != []
    ensures After(w, events) == Next(After(w, events[..|events| - 1]), events[|events| - 1])
  {
  }

  /**
   Over every run without another writer of specs, whatever the caches show and
   whichever reads and writes fail, a number of brokers within the upper limit
   stays within it.
   */
  lemma {:induction false} UpperLimitHolds(w: World, events: seq<Event>, name: string)
    requires AllAlone(events) && name in w.clusters && w.clusters[name] != []
    ensures name in After(w, events).clusters && After(w, events).clusters[name] != []
    ensures
      var s, s' := Current(w.clusters[name]), Current(After(w, events).clusters[name]);
      s'.limits == s.limits && (WithinUpper(s) ==> WithinUpper(s'))
  {
    if events != [] {
      hide Next;
      UpperLimitHolds(w, events[..|events| - 1], name);
      AfterLast(w, events);
      AloneCounts(After(w, events[..|events| - 1]), events[|events| - 1], name);
    }
  }

  /** The ids of a cluster are distinct and admissible in every state of a run but the last. */
  ghost predicate IdsStayGood(w: World, events: seq<Event>, name: string) {
    forall i :: 0 <= i < |events| ==>
      var clusters := After(w, events[..i]).clusters;
      name in clusters && clusters[name] != [] && Good(Current(clusters[name]))
  }

  /**
   Over every run without another writer of specs, whatever the caches show, a
   number of brokers within both limits stays within them as long as the ids are
   distinct.
   */
  lemma {:induction false} CountsHoldWhileDistinct(w: World, events: seq<Event>, name: string)
    requires AllAlone(events) && name in w.clusters && w.clusters[name] != [] && IdsStayGood(w, events, name)
    ensures name in After(w, events).clusters && After(w, events).clusters[name] != []
    ensures
      var s, s' := Current(w.clusters[name]), Current(After(w, events).clusters[name]);
      s'.limits == s.limits && (WithinLimits(s) ==> WithinLimits(s'))
  {
    if events != [] {
      hide Next, Good;
      var front := events[..|events| - 1];
      assert forall i :: 0 <= i < |front| ==> events[..i] == front[..i];
      CountsHoldWhileDistinct(w, front, name);
      AfterLast(w, events);
      AloneCounts(After(w, front), events[|events| - 1], name);
    }
  }

  // ---------------------------------------------------------------------------
  // Both limits and distinct ids

  ghost predicate AllGood(w: World) {
    forall n :: n in w.clusters ==> w.clusters[n] != [] && Good(Current(w.clusters[n]))
  }

  /** The reads of one client do not go back: the plan sees no older version than the check. */
  predicate ReadsForward(w: World, e: Event) {
    e.Handle? && IsPending(w, e.alert) && w.alerts[e.alert].cluster.Some? && e.found.planned.Some? ==>
      var checked := CheckedVersion(w, w.alerts[e.alert].cluster.value, e.found);
      checked.Some? ==> checked.value <= e.found.planned.value
  }

  ghost predicate AllForward(w: World, events: seq<Event>) {
    forall i :: 0 <= i < |events| ==> ReadsForward(After(w, events[..i]), events[i])
  }

  lemma CheckedVersionIsLatest(w: World, name: string, c: Circumstances)
    requires c.first.others == [] && c.again.others == [] && Check(w, name, c).1.Some?
    ensures CheckedVersion(w, name, c).Some? && IsLatest(w, name, CheckedVersion(w, name, c).value)
  {
  }

  lemma OwnStep(w: World, a: Alert, c: Circumstances)
    requires OwnWrite(w, a, c).Some? && Good(Current(w.clusters[OwnWrite(w, a, c).value.cluster]))
    requires MeetsLimits(Current(w.clusters[OwnWrite(w, a, c).value.cluster]), a.command)
    requires IsAdmitted(OwnWrite(w, a, c).value.spec)
    requires a.command == UP_SCALE && c.planned.Some? ==> IsLatest(w, OwnWrite(w, a, c).value.cluster, c.planned.value)
    ensures IsStep(Current(w.clusters[OwnWrite(w, a, c).value.cluster]), OwnWrite(w, a, c).value.spec)
  {
    hide Good, IsStep, IsAdmitted, Biggest, Without, Reconfigured;
    var s := Current(w.clusters[OwnWrite(w, a, c).value.cluster]);
    if a.command == UP_SCALE {
      UpScaleStep(s, c.newConfig);
    } else if a.command == DOWN_SCALE {
      var id := if a.broker.Some? then a.broker else c.leastLoaded;
      DownScaleStep(s, id.value);
    } else {
      ReconfiguredStep(s, c.claim.configs);
    }
  }

  /** What a handling with reads that go forward adds to a cluster, if anything. */
  ghost predicate AddsStep(h: seq<Spec>, h': seq<Spec>) {
    h' == h || (h != [] && |h'| == |h| + 1 && h'[..|h|] == h && IsStep(Current(h), Current(h')))
  }

  lemma AloneSteps(w: World, e: Event, name: string)
    requires IsAlone(e) && AllGood(w) && ReadsForward(w, e) && name in w.clusters
    ensures name in Next(w, e).clusters && AddsStep(w.clusters[name], Next(w, e).clusters[name])
  {
    hide Examine, OwnWrite, IsStep, MeetsLimits, WriteAll, BeforeChange, Good, IsAdmitted, CheckedVersion;
    if e.Handle? && IsPending(w, e.alert) {
      var a, c := w.alerts[e.alert], e.found;
      ExamineShape(w, a, c);
      AloneChangesOnly(w, a, c);
      if Examine(w, a, c).changed {
        OwnCountStep(w, a, c);
        OtherCommandsAreFree(OwnWrite(w, a, c).value.cluster, w, a);
        if a.command in {DOWN_SCALE, UP_SCALE} {
          LimitsBreakOnlyByOthers(w, a, c);
          if c.planned.Some? {
            PlanIsLatest(w, a, c);
          }
        }
        OwnStep(w, a, c);
      }
    }
  }

  lemma PlanIsLatest(w: World, a: Alert, c: Circumstances)
    requires c.first.others == [] && c.again.others == [] && c.between == []
    requires Examine(w, a, c).changed && a.command in {DOWN_SCALE, UP_SCALE} && a.cluster.Some? && c.planned.Some?
    requires
      var checked := CheckedVersion(w, a.cluster.value, c);
      checked.Some? ==> checked.value <= c.planned.value
    ensures IsLatest(w, a.cluster.value, c.planned.value)
  {
    hide WriteStatus, CheckedVersion, IsAdmitted, Biggest, Without;
    CheckedVersionIsLatest(w, a.cluster.value, c);
  }

  /** What a cluster looks like after a run, compared with before. */
  ghost predicate Kept(before: Spec, after: Spec) {
    Good(after) && after.limits == before.limits && (WithinLimits(before) ==> WithinLimits(after))
  }

  /**
   Over every run over any clusters without another writer of specs, with reads
   that do not go back within a handling, the ids of a cluster's brokers stay
   distinct and admissible, and a number of brokers that lies within the limits
   stays within them.
   */
  lemma {:induction false} LimitsHold(w: World, events: seq<Event>)
    requires AllGood(w) && AllAlone(events) && AllForward(w, events)
    ensures AllGood(After(w, events)) && After(w, events).clusters.Keys == w.clusters.Keys
    ensures forall n :: n in w.clusters ==> Kept(Current(w.clusters[n]), Current(After(w, events).clusters[n]))
  {
    if events != [] {
      var front, last := events[..|events| - 1], events[|events| - 1];
      assert forall i :: 0 <= i < |front| ==> events[..i] == front[..i];
      LimitsHold(w, front);
      hide Next, ReadsForward, After;
      var w1 := After(w, front);
      AfterLast(w, events);
      NextKeys(w1, last);
      forall n | n in w.clusters
        ensures Next(w1, last).clusters[n] != [] && Kept(Current(w1.clusters[n]), Current(Next(w1, last).clusters[n]))
      {
        AloneSteps(w1, last, n);
        AddsStepKeeps(w1.clusters[n], Next(w1, last).clusters[n]);
      }
    }
  }

  lemma AddsStepKeeps(h: seq<Spec>, h': seq<Spec>)
    requires h != [] && Good(Current(h)) && AddsStep(h, h')
    ensures h' != [] && Kept(Current(h), Current(h'))
  {
  }

  lemma NextKeys(w: World, e: Event)
    ensures Next(w, e).clusters.Keys == w.clusters.Keys
  {
    hide Examine, OwnWrite, WriteAll, BeforeChange;
    if e.Handle? && IsPending(w, e.alert) {
      ExamineShape(w, w.alerts[e.alert], e.found);
      BeforeChangeKeys(w, w.alerts[e.alert], e.found);
    } else if e.Foreign? {
      WriteAllAlerts(w, [e.write]);
    }
  }

  lemma BeforeChangeKeys(w: World, a: Alert, c: Circumstances)
    ensures BeforeChange(w, a, c).clusters.Keys == w.clusters.Keys
  {
    hide OthersOf;
    WriteAllAlerts(w, OthersOf(w, a, c));
  }

  // ---------------------------------------------------------------------------
  // Each stored alert changes the spec at most once, unless an answer is lost

  /** The i-th event of a run handles an alert and changes a spec for it. */
  ghost predicate Changes(w: World, events: seq<Event>, i: nat)
    requires i < |events|
  {
    events[i].Handle? &&
    var w' := After(w, events[..i]);
    IsPending(w', events[i].alert) && Examine(w', w'.alerts[events[i].alert], events[i].found).changed
  }

  predicate IsProcessed(w: World, fp: string) {
    fp in w.alerts && w.alerts[fp].processed
  }

  /** An alert that changed the spec is processed exactly when the answer to the write arrived. */
  lemma ChangeProcesses(w: World, fp: string, c: Circumstances)
    requires IsPending(w, fp) && Examine(w, w.alerts[fp], c).changed
    ensures c.written.TakesEffect() && (IsProcessed(HandleAlert(w, fp, c), fp) <==> c.written == Handled)
  {
    hide Examine, OwnWrite;
    ExamineShape(w, w.alerts[fp], c);
  }

  lemma ProcessedStays(w: World, e: Event, fp: string)
    requires IsProcessed(w, fp) && !(e.Deliver? && e.alert == fp && e.resolved)
    ensures IsProcessed(Next(w, e), fp)
  {
    hide Examine, OwnWrite, WriteAll;
    if e.Handle? && e.alert in w.alerts {
      ExamineShape(w, w.alerts[e.alert], e.found);
    } else if e.Foreign? {
      WriteAllAlerts(w, [e.write]);
    }
  }

  ghost predicate ResolvedBetween(events: seq<Event>, fp: string, i: int, j: int) {
    exists k :: i < k < j && 0 <= k < |events| && events[k].Deliver? && events[k].alert == fp && events[k].resolved
  }

  lemma {:induction false} ProcessedUntilResolved(w: World, events: seq<Event>, fp: string, i: nat, j: nat)
    requires i < j <= |events| && IsProcessed(After(w, events[..i + 1]), fp) && !ResolvedBetween(events, fp, i, j)
    ensures IsProcessed(After(w, events[..j]), fp)
    decreases j
  {
    if j > i + 1 {
      ProcessedUntilResolved(w, events, fp, i, j - 1);
      assert events[..j][..j - 1] == events[..j - 1];
      hide Next;
      AfterLast(w, events[..j]);
      ProcessedStays(After(w, events[..j - 1]), events[j - 1], fp);
    }
  }

  /** Between two spec changes made for the same alert, that alert was resolved, or the answer to the first was lost. */
  lemma ChangesOncePerAlert(w: World, events: seq<Event>, i: nat, j: nat)
    requires i < j < |events| && Changes(w, events, i) && Changes(w, events, j) && events[i].alert == events[j].alert
    ensures ResolvedBetween(events, events[i].alert, i, j) || events[i].found.written == AnswerLost
  {
    hide HandleAlert;
    var fp := events[i].alert;
    assert events[..i + 1][..i] == events[..i] && events[..j + 1][..j] == events[..j];
    ChangeProcesses(After(w, events[..i]), fp, events[i].found);
    ChangeProcesses(After(w, events[..j]), fp, events[j].found);
    if !ResolvedBetween(events, fp, i, j) && events[i].found.written == Handled {
      ProcessedUntilResolved(w, events, fp, i, j);
    }
  }
}
