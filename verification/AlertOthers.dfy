/**
 Scaling on alerts beside another writer of specs: exactly which handlings and
 which runs keep the limits and the ids, and instances that do not.
 */
module AlertOthers {
  import opened Wrappers
  import opened ApiServer
  import opened ScaleParameters
  import opened AlertScaling
  import opened AlertSafety

  // ---------------------------------------------------------------------------
  // One change

  /** No broker of s has the id that an upscale planned from `plan` would give. */
  predicate IsUnused(s: Spec, plan: Spec) {
    forall i :: 0 <= i < |s.brokers| ==> s.brokers[i].id != Biggest(plan.brokers) + 1
  }

  predicate HasBroker(s: Spec, id: string) {
    exists i :: 0 <= i < |s.brokers| && IdText(s.brokers[i].id) == id
  }

  ghost predicate IsOk(s: Spec) {
    Good(s) && WithinLimits(s)
  }

  /**
   A committed upscale keeps the ids distinct exactly when the id it planned,
   perhaps from an older version, is unused in the version it replaces, and keeps
   the limits exactly when the check would have let the replaced version pass.
   */
  lemma UpScaleIsSafeExactlyWhen(s: Spec, plan: Spec, config: string)
    requires IsOk(s)
    ensures
      var after := Enlarged(s, plan, config);
      && (WithinLimits(after) <==> !UpDisabled(s))
      && (IsAdmitted(after) ==> (Good(after) <==> IsUnused(s, plan)))
  {
    hide Biggest;
    var after := Enlarged(s, plan, config);
    assert forall i :: 0 <= i < |s.brokers| ==> after.brokers[i] == s.brokers[i];
    assert after.brokers[|s.brokers|].id == Biggest(plan.brokers) + 1;
  }

  /**
   A committed downscale keeps the ids, and the limits exactly when it removes
   nothing or the check would have let the replaced version pass.
   */
  lemma DownScaleIsSafeExactlyWhen(s: Spec, id: string)
    requires IsOk(s)
    ensures
      var after := s.(brokers := Without(s.brokers, id));
      Good(after) && (WithinLimits(after) <==> !HasBroker(s, id) || !DownDisabled(s))
  {
    DownScaleStep(s.(limits := None), id);
    WithoutMembers(s.brokers, id);
    if !HasBroker(s, id) {
      WithoutNone(s.brokers, id);
    } else {
      hide IdText, Without;
      var i :| 0 <= i < |s.brokers| && IdText(s.brokers[i].id) == id;
      assert s.brokers[i] in s.brokers;
      FewerWhenOneIsGone(s.brokers, Without(s.brokers, id), s.brokers[i]);
    }
  }

  lemma FewerWhenOneIsGone(brokers: seq<Broker>, rest: seq<Broker>, b: Broker)
    requires DistinctIds(brokers) && DistinctIds(rest) && b in brokers && b !in rest
    requires forall x :: x in rest ==> x in brokers
    ensures |rest| < |brokers|
  {
    var all, kept := set x | x in brokers, set x | x in rest;
    DistinctCount(brokers);
    DistinctCount(rest);
    assert kept <= all - {b};
    SubsetCount(kept, all - {b});
  }

  lemma {:induction false} SubsetCount(a: set<Broker>, b: set<Broker>)
    requires a <= b
    ensures |a| <= |b|
    decreases |a|
  {
    if a != {} {
      var x :| x in a;
      SubsetCount(a - {x}, b - {x});
    }
  }

  lemma {:induction false} DistinctCount(brokers: seq<Broker>)
    requires DistinctIds(brokers)
    ensures |set x | x in brokers| == |brokers|
  {
    if brokers != [] {
      var front, last := brokers[..|brokers| - 1], brokers[|brokers| - 1];
      DistinctCount(front);
      assert brokers == front + [last];
      assert last !in front;
      assert (set x | x in brokers) == (set x | x in front) + {last};
    }
  }

  // ---------------------------------------------------------------------------
  // Every version that was ever written

  ghost predicate HistoryOk(w: World) {
    forall n :: n in w.clusters ==> w.clusters[n] != [] && forall s :: s in w.clusters[n] ==> IsOk(s)
  }

  /** Every write that takes effect is in order. */
  ghost predicate WritesOk(w: World, writes: seq<Write>) {
    forall x :: x in writes && TakesEffect(w, x) ==> IsOk(x.spec)
  }

  lemma AddedIsOk(w: World, name: string, s: Spec)
    requires name in w.clusters
    ensures HistoryOk(Added(w, name, s)) ==> IsOk(s)
    ensures HistoryOk(w) && IsOk(s) ==> HistoryOk(Added(w, name, s))
  {
    hide IsOk;
    var w' := Added(w, name, s);
    assert s in w'.clusters[name];
  }

  /** What is not in order stays in the history. */
  lemma AddedKeepsBad(w: World, name: string, s: Spec)
    requires name in w.clusters && w.clusters[name] != [] && HistoryOk(Added(w, name, s))
    ensures HistoryOk(w)
  {
    hide IsOk;
    var w' := Added(w, name, s);
    forall n, x | n in w.clusters && x in w.clusters[n] ensures IsOk(x) {
      assert x in w'.clusters[n];
    }
    forall n | n in w.clusters ensures w.clusters[n] != [] {
      assert n != name ==> w'.clusters[n] == w.clusters[n];
    }
  }

  ghost predicate AllWritten(w: World) {
    forall n :: n in w.clusters ==> w.clusters[n] != []
  }

  lemma {:induction false} WriteAllIsOk(w: World, writes: seq<Write>)
    requires AllWritten(w)
    ensures AllWritten(WriteAll(w, writes))
    ensures HistoryOk(WriteAll(w, writes)) <==> HistoryOk(w) && WritesOk(w, writes)
  {
    hide IsOk, IsAdmitted, HistoryOk;
    if writes != [] {
      var front, last := writes[..|writes| - 1], writes[|writes| - 1];
      var w' := WriteAll(w, front);
      WriteAllIsOk(w, front);
      WriteAllAlerts(w, front);
      assert writes == front + [last];
      if TakesEffect(w', last) {
        AddedIsOk(w', last.cluster, last.spec);
        if HistoryOk(Added(w', last.cluster, last.spec)) {
          AddedKeepsBad(w', last.cluster, last.spec);
        }
      }
    }
  }

  // ---------------------------------------------------------------------------
  // One handling

  /** The guard that the change of a handling must meet in the version that it replaces. */
  predicate MeetsGuard(w: World, a: Alert, c: Circumstances) {
    a.cluster.Some? && a.cluster.value in w.clusters && w.clusters[a.cluster.value] != [] ==>
      var s, plan := Current(w.clusters[a.cluster.value]), ReadSpec(w, a.cluster.value, c.planned);
      var id := if a.broker.Some? then a.broker else c.leastLoaded;
      && (a.command == UP_SCALE ==> !UpDisabled(s) && (plan.Some? ==> IsUnused(s, plan.value)))
      && (a.command == DOWN_SCALE && id.Some? && HasBroker(s, id.value) ==> !DownDisabled(s))
  }

  lemma OwnIsOkExactlyWhen(w: World, a: Alert, c: Circumstances)
    requires OwnWrite(w, a, c).Some? && IsAdmitted(OwnWrite(w, a, c).value.spec)
    requires IsOk(Current(w.clusters[OwnWrite(w, a, c).value.cluster]))
    ensures IsOk(OwnWrite(w, a, c).value.spec) <==> MeetsGuard(w, a, c)
  {
    hide Good, WithinLimits, IsAdmitted, Enlarged, Without, Reconfigured, IsUnused, HasBroker, UpDisabled, DownDisabled;
    var x := OwnWrite(w, a, c).value;
    var s := Current(w.clusters[x.cluster]);
    if a.command == UP_SCALE {
      UpScaleIsSafeExactlyWhen(s, ReadSpec(w, x.cluster, c.planned).value, c.newConfig);
    } else if a.command == DOWN_SCALE {
      var id := if a.broker.Some? then a.broker else c.leastLoaded;
      DownScaleIsSafeExactlyWhen(s, id.value);
    } else {
      ReconfiguredIsOk(s, c.claim.configs);
    }
  }

  lemma ReconfiguredIsOk(s: Spec, configs: seq<string>)
    requires IsOk(s)
    ensures IsOk(s.(brokers := Reconfigured(s.brokers, configs)))
  {
    ReconfiguredStep(s, configs);
  }

  /** What others write is in order, and a change of the handling's own meets its guard in the version it replaces. */
  ghost predicate IsSafe(w: World, e: Event) {
    match e
    case Deliver(_, _, _) => true
    case Foreign(x) => WritesOk(w, [x])
    case Handle(fp, c) =>
      IsPending(w, fp) ==>
        var a := w.alerts[fp];
        && WritesOk(w, OthersOf(w, a, c))
        && (Examine(w, a, c).changed ==> MeetsGuard(BeforeChange(w, a, c), a, c))
  }

  lemma ExamineIsSafeExactlyWhen(w: World, a: Alert, c: Circumstances)
    requires AllWritten(w)
    ensures AllWritten(Examine(w, a, c).world)
    ensures HistoryOk(Examine(w, a, c).world) <==>
      && HistoryOk(w) && WritesOk(w, OthersOf(w, a, c))
      && (Examine(w, a, c).changed ==> MeetsGuard(BeforeChange(w, a, c), a, c))
  {
    hide Examine, OwnWrite, WriteAll, OthersOf, MeetsGuard, IsOk, IsAdmitted, WritesOk, HistoryOk;
    var w' := BeforeChange(w, a, c);
    ExamineShape(w, a, c);
    WriteAllIsOk(w, OthersOf(w, a, c));
    if Examine(w, a, c).changed {
      var x := OwnWrite(w', a, c).value;
      AddedIsOk(w', x.cluster, x.spec);
      if HistoryOk(Added(w', x.cluster, x.spec)) {
        AddedKeepsBad(w', x.cluster, x.spec);
      }
      if HistoryOk(w') {
        CurrentIsOk(w', x.cluster);
        OwnIsOkExactlyWhen(w', a, c);
      }
    }
  }

  lemma CurrentIsOk(w: World, name: string)
    requires HistoryOk(w) && name in w.clusters
    ensures w.clusters[name] != [] && IsOk(Current(w.clusters[name]))
  {
  }

  lemma EventIsSafeExactlyWhen(w: World, e: Event)
    requires AllWritten(w)
    ensures AllWritten(Next(w, e))
    ensures HistoryOk(Next(w, e)) <==> HistoryOk(w) && IsSafe(w, e)
  {
    hide Examine, WriteAll, OthersOf, MeetsGuard, IsOk, WritesOk, BeforeChange;
    match e
    case Deliver(_, _, _) =>
    case Foreign(x) => WriteAllIsOk(w, [x]);
    case Handle(fp, c) =>
      if IsPending(w, fp) {
        ExamineIsSafeExactlyWhen(w, w.alerts[fp], c);
      }
  }

  /**
   In a run with other writers every version ever written is in order, ids
   distinct and broker counts within the limits, exactly when the versions at the
   start are, what others write is, and each change made for an alert meets its
   guard in the version that it replaces.
   */
  lemma {:induction false} RunIsSafeExactlyWhen(w: World, events: seq<Event>)
    requires AllWritten(w)
    ensures AllWritten(After(w, events))
    ensures HistoryOk(After(w, events)) <==>
      HistoryOk(w) && forall i :: 0 <= i < |events| ==> IsSafe(After(w, events[..i]), events[i])
  {
    hide Next, HistoryOk, IsSafe;
    if events != [] {
      var n := |events| - 1;
      var front := events[..n];
      RunIsSafeExactlyWhen(w, front);
      AfterLast(w, events);
      EventIsSafeExactlyWhen(After(w, front), events[n]);
      SafeSplits(w, events);
    }
  }

  lemma SafeSplits(w: World, events: seq<Event>)
    requires events != []
    ensures
      var n := |events| - 1;
      (forall i :: 0 <= i < |events| ==> IsSafe(After(w, events[..i]), events[i])) <==>
      (forall i :: 0 <= i < n ==> IsSafe(After(w, events[..n][..i]), events[..n][i])) &&
        IsSafe(After(w, events[..n]), events[n])
  {
    hide After, IsSafe;
    var n := |events| - 1;
    assert forall i :: 0 <= i <= n ==> events[..i] == events[..n][..i];
  }

  /**
   A handling whose reads do not go back meets its guard, unless others wrote its
   cluster between the check of the limits and the change.
   */
  lemma UninterruptedMeetsGuard(w: World, fp: string, c: Circumstances)
    requires IsPending(w, fp) && Examine(w, w.alerts[fp], c).changed && ReadsForward(w, Event.Handle(fp, c))
    requires forall x :: x in c.between ==> Some(x.cluster) != w.alerts[fp].cluster
    ensures MeetsGuard(BeforeChange(w, w.alerts[fp], c), w.alerts[fp], c)
  {
    hide Examine, OthersOf, WriteAll, UpDisabled, DownDisabled, HasBroker, IsUnused, CheckedVersion;
    var a := w.alerts[fp];
    if a.command in {DOWN_SCALE, UP_SCALE} {
      LimitsBreakOnlyByOthers(w, a, c);
      var w', name := BeforeChange(w, a, c), a.cluster.value;
      var plan := ReadSpec(w', name, c.planned);
      if plan.Some? {
        PlanIsNotBehind(w, a, c);
        OwnIdIsUnused(Current(w'.clusters[name]));
      }
    }
  }

  lemma OwnIdIsUnused(s: Spec)
    ensures IsUnused(s, s)
  {
  }

  lemma PlanIsNotBehind(w: World, a: Alert, c: Circumstances)
    requires Examine(w, a, c).changed && a.command in {DOWN_SCALE, UP_SCALE} && a.cluster.Some?
    requires forall x :: x in c.between ==> Some(x.cluster) != a.cluster
    requires
      var checked := CheckedVersion(w, a.cluster.value, c);
      checked.Some? && c.planned.Some? ==> checked.value <= c.planned.value
    requires ReadSpec(BeforeChange(w, a, c), a.cluster.value, c.planned).Some?
    ensures IsLatest(BeforeChange(w, a, c), a.cluster.value, c.planned.value)
  {
    var name := a.cluster.value;
    assert Check(w, name, c).1.Some? && c.running;
    CheckedVersionWasLatest(w, name, c);
    hide WriteAll, WriteStatus, Check, CheckedVersion, Process;
    var w1 := Check(w, name, c).0;
    var conflict := WriteStatus(WriteAll(w, c.first.others), name, c.first).StatusConflict?;
    CheckWrites(w, name, c);
    WriteAllAppend(w, c.first.others + if conflict then c.again.others else [], c.between);
    WriteAllElsewhere(w1, c.between, name);
  }

  lemma CheckedVersionWasLatest(w: World, name: string, c: Circumstances)
    requires Check(w, name, c).1.Some?
    ensures CheckedVersion(w, name, c).Some? && IsLatest(Check(w, name, c).0, name, CheckedVersion(w, name, c).value)
  {
    hide WriteAll;
  }

  // ---------------------------------------------------------------------------
  // Instances

  function Brokers(n: nat): seq<Broker> {
    seq(n, i requires 0 <= i < n => Broker(i, ""))
  }

  /**
   A handling whose status write goes through at once, with what others write
   after it and the versions that the check, the plan and the change read.
   */
  function Finding(between: seq<Write>, checked: nat, planned: nat, changed: nat, written: Delivery): Circumstances {
    Circumstances(Attempt([], Some(checked), false, Handled), Attempt([], None, false, Handled), true, between,
                  Some(planned), false, None, "", ClaimSkipped, Some(changed), written)
  }

  function OneCluster(history: seq<Spec>, alert: Alert): World {
    World(map["kafka" := history], map["b" := alert])
  }

  lemma FindingChecks(history: seq<Spec>, alert: Alert, between: seq<Write>, planned: nat, changed: nat,
                      written: Delivery)
    requires history != []
    ensures
      var c := Finding(between, |history| - 1, planned, changed, written);
      Check(OneCluster(history, alert), "kafka", c) == (OneCluster(history, alert), Some(Current(history)))
  {
  }

  lemma OneWrite(history: seq<Spec>, alert: Alert, spec: Spec)
    requires IsAdmitted(spec)
    ensures WriteAll(OneCluster(history, alert), [Write("kafka", spec)]) == OneCluster(history + [spec], alert)
  {
    assert [Write("kafka", spec)][..0] == [];
  }

  const TWO := Some(Limits(1, 2))

  /**
   Another writer adds a broker between the check and the change of an upscale:
   the limit is exceeded, and the id is repeated as the plan was made before.
   */
  lemma OtherWriterOverruns()
    ensures
      var w := OneCluster([Spec(Brokers(1), TWO)], Alert(UP_SCALE, Some("kafka"), None, None, false));
      var c := Finding([Write("kafka", Spec(Brokers(2), TWO))], 0, 0, 1, Handled);
      var after := HandleAlert(w, "b", c).clusters;
      && HistoryOk(w) && WritesOk(w, c.between) && ReadsForward(w, Event.Handle("b", c))
      && "kafka" in after && |after["kafka"]| == 3
      && !WithinLimits(after["kafka"][2]) && !DistinctIds(after["kafka"][2].brokers)
  {
    var alert := Alert(UP_SCALE, Some("kafka"), None, None, false);
    var one, two := Spec(Brokers(1), TWO), Spec(Brokers(2), TWO);
    var w, c := OneCluster([one], alert), Finding([Write("kafka", two)], 0, 0, 1, Handled);
    FindingChecks([one], alert, c.between, 0, 1, Handled);
    OneWrite([one], alert, two);
    BiggestOf(1);
    hide Biggest, WriteAll, Check;
    assert [one] + [two] == [one, two];
    var w', three := OneCluster([one, two], alert), Spec(Brokers(2) + [Broker(1, "")], TWO);
    assert Examine(w, alert, c) == UpScale(w', "kafka", c) == Commit(w', "kafka", 1, three, Handled);
    assert three.brokers[1].id == three.brokers[2].id;
  }

  /** Another writer removes a broker between the check and the change of a downscale: the limit is missed. */
  lemma OtherWriterUnderruns()
    ensures
      var limits := Some(Limits(2, 0));
      var w := OneCluster([Spec(Brokers(3), limits)], Alert(DOWN_SCALE, Some("kafka"), None, Some("0"), false));
      var c := Finding([Write("kafka", Spec(Brokers(2), limits))], 0, 1, 1, Handled);
      var after := HandleAlert(w, "b", c).clusters;
      && HistoryOk(w) && WritesOk(w, c.between) && ReadsForward(w, Event.Handle("b", c))
      && "kafka" in after && |after["kafka"]| == 3 && !WithinLimits(after["kafka"][2])
  {
    var limits := Some(Limits(2, 0));
    var alert := Alert(DOWN_SCALE, Some("kafka"), None, Some("0"), false);
    var three, two := Spec(Brokers(3), limits), Spec(Brokers(2), limits);
    var w, c := OneCluster([three], alert), Finding([Write("kafka", two)], 0, 1, 1, Handled);
    FindingChecks([three], alert, c.between, 1, 1, Handled);
    OneWrite([three], alert, two);
    assert IdText(two.brokers[0].id) == "0";
    DownScaleIsSafeExactlyWhen(two, "0");
    hide Without, WriteAll, Check;
    assert [three] + [two] == [three, two];
    var w', less := OneCluster([three, two], alert), two.(brokers := Without(two.brokers, "0"));
    assert Examine(w, alert, c) == DownScale(w', "kafka", alert, c) == Commit(w', "kafka", 1, less, Handled);
  }

  /** An upscale whose answer is lost leaves its alert unprocessed, so that the same alert adds a second broker. */
  lemma LostAnswerChangesTwice()
    ensures
      var w := OneCluster([Spec(Brokers(1), None)], Alert(UP_SCALE, Some("kafka"), None, None, false));
      var first := HandleAlert(w, "b", Finding([], 0, 0, 0, AnswerLost));
      var second := HandleAlert(first, "b", Finding([], 1, 1, 1, Handled));
      && !IsProcessed(first, "b") && IsProcessed(second, "b")
      && second.clusters == map["kafka" := [Spec(Brokers(1), None), Spec(Brokers(2), None), Spec(Brokers(3), None)]]
  {
    hide HandleAlert;
    var one, two, three := Spec(Brokers(1), None), Spec(Brokers(2), None), Spec(Brokers(3), None);
    UpScaleByOne([one], 1, AnswerLost);
    UpScaleByOne([one, two], 2, Handled);
    assert [one] + [two] == [one, two] && [one, two] + [three] == [one, two, three];
  }

  /** An upscale without limits and without another writer. */
  lemma UpScaleByOne(history: seq<Spec>, n: nat, written: Delivery)
    requires history != [] && Current(history) == Spec(Brokers(n), None)
    requires 0 < n < BROKER_ID_LIMIT && written.TakesEffect()
    ensures
      var alert, v := Alert(UP_SCALE, Some("kafka"), None, None, false), |history| - 1;
      HandleAlert(OneCluster(history, alert), "b", Finding([], v, v, v, written)) ==
      OneCluster(history + [Spec(Brokers(n + 1), None)], alert.(processed := written == Handled))
  {
    var alert, v := Alert(UP_SCALE, Some("kafka"), None, None, false), |history| - 1;
    var w, c, next := OneCluster(history, alert), Finding([], v, v, v, written), Spec(Brokers(n + 1), None);
    BiggestOf(n);
    FindingChecks(history, alert, [], v, v, written);
    WritesNothing(w);
    hide Biggest, Check, WriteAll;
    assert Brokers(n) + [Broker(n, "")] == Brokers(n + 1);
    assert Examine(w, alert, c) == UpScale(w, "kafka", c) == Commit(w, "kafka", v, next, written);
    assert Added(w, "kafka", next) == OneCluster(history + [next], alert);
  }

  lemma BiggestOf(n: nat)
    requires n > 0
    ensures Biggest(Brokers(n)) == n - 1
  {
    assert Brokers(n)[n - 1].id == n - 1;
  }
}
