/** What handling an alert does to a spec, and exactly when it does anything. */
module AlertChanges {
  import opened Wrappers
  import opened ApiServer
  import opened ScaleParameters
  import opened Selections
  import opened AlertScaling
  import opened AlertSafety

  /** The check of the limits passed: the spec that was checked, and the state in which the command is run. */
  ghost predicate IsReached(w: World, a: Alert, c: Circumstances, checked: Spec, there: World) {
    && NameOf(a).Some? && c.running
    && Check(w, NameOf(a).value, c) == (Check(w, NameOf(a).value, c).0, Some(checked))
    && there == WriteAll(Check(w, NameOf(a).value, c).0, c.between)
  }

  /** Nothing is changed unless the check of the limits was reached. */
  lemma ChangedIsReached(w: World, a: Alert, c: Circumstances) returns (checked: Spec, there: World)
    requires Examine(w, a, c).changed
    ensures IsReached(w, a, c, checked, there)
  {
    hide Check, WriteAll;
    checked := Check(w, NameOf(a).value, c).1.value;
    there := WriteAll(Check(w, NameOf(a).value, c).0, c.between);
  }

  /** One attempt to write the status succeeds: the latest version was read and nobody else wrote the status. */
  predicate Succeeds(w: World, name: string, at: Attempt) {
    && name in w.clusters && at.read.Some? && at.read.value + 1 == |w.clusters[name]|
    && !at.conflicts && at.delivery == Handled
  }

  /** The write is answered with a conflict: some version was read, and it is outdated or the status was written. */
  predicate Conflicts(w: World, name: string, at: Attempt) {
    && name in w.clusters && at.read.Some? && at.read.value < |w.clusters[name]| && at.delivery == Handled
    && (at.conflicts || at.read.value + 1 < |w.clusters[name]|)
  }

  /** The check is reached exactly when the first attempt succeeds, or conflicts and the second one succeeds. */
  lemma CheckSucceedsExactlyWhen(w: World, name: string, c: Circumstances)
    ensures
      var w1 := WriteAll(w, c.first.others);
      Check(w, name, c).1.Some? <==>
        || Succeeds(w1, name, c.first)
        || (Conflicts(w1, name, c.first) && Succeeds(WriteAll(w1, c.again.others), name, c.again))
  {
    hide WriteAll;
  }

  /** The last version of the spec was read again and the new one is admitted and takes effect. */
  predicate CanCommit(w: World, name: string, c: Circumstances, spec: Spec) {
    && name in w.clusters && c.changed.Some? && c.changed.value + 1 == |w.clusters[name]|
    && IsAdmitted(spec) && c.written.TakesEffect()
  }

  /** The limits are not reached; a limit for upscaling counts only when it is positive. */
  predicate IsBelowUpper(s: Spec) {
    s.limits.None? || s.limits.value.up <= 0 || |s.brokers| < s.limits.value.up
  }

  predicate IsAboveLower(s: Spec) {
    s.limits.None? || |s.brokers| > s.limits.value.down
  }

  /** The broker to be removed: the one that the alert names, or else the least loaded one. */
  function ToRemove(a: Alert, c: Circumstances): Option<string> {
    match a.broker
    case Some(id) => Some(id)
    case None => c.leastLoaded
  }

  /** The old brokers in their order and a new one behind them, whose id follows the highest of the plan. */
  ghost predicate AddsBroker(before: Spec, plan: Spec, after: Spec) {
    && after.limits == before.limits && |after.brokers| == |before.brokers| + 1
    && after.brokers[..|before.brokers|] == before.brokers
    && var id := after.brokers[|before.brokers|].id;
    && id > 0 && (forall b :: b in plan.brokers ==> b.id < id)
    && (id == 1 || exists b :: b in plan.brokers && b.id == id - 1)
  }

  /** The brokers without those of the given id, in their order. */
  ghost predicate RemovesBroker(before: Spec, id: string, after: Spec) {
    && after.limits == before.limits
    && after.brokers == Filter(before.brokers, (b: Broker) => IdText(b.id) != id)
  }

  lemma {:induction false} WithoutIsFilter(brokers: seq<Broker>, id: string, keep: Broker -> bool)
    requires forall b :: keep(b) <==> IdText(b.id) != id
    ensures Without(brokers, id) == Filter(brokers, keep)
  {
    hide IdText;
    if brokers != [] {
      WithoutIsFilter(brokers[..|brokers| - 1], id, keep);
    }
  }

  lemma EnlargedAddsBroker(s: Spec, plan: Spec, config: string)
    ensures AddsBroker(s, plan, Enlarged(s, plan, config))
  {
  }

  lemma WithoutRemovesBroker(s: Spec, id: string)
    ensures RemovesBroker(s, id, s.(brokers := Without(s.brokers, id)))
  {
    WithoutIsFilter(s.brokers, id, (b: Broker) => IdText(b.id) != id);
  }

  /**
   An upscale changes the spec exactly when the check was passed below the limit,
   the plan could be read, no broker has a task, and the change can be committed;
   it then adds one broker.  A busy cluster is not scaled, and the alert counts as
   processed.
   */
  lemma UpScaleChangesExactlyWhen(w: World, a: Alert, c: Circumstances, checked: Spec, there: World)
    requires IsReached(w, a, c, checked, there) && a.command == "upScale" && a.cluster.Some?
    ensures
      var name, r := a.cluster.value, Examine(w, a, c);
      var plan := ReadSpec(there, name, c.planned);
      && (r.changed <==>
            && IsBelowUpper(checked) && plan.Some? && !c.busy && name in there.clusters && there.clusters[name] != []
            && CanCommit(there, name, c, Enlarged(Current(there.clusters[name]), plan.value, c.newConfig)))
      && (r.changed ==>
            && name in r.world.clusters && r.world.clusters[name] != [] && name in there.clusters
            && there.clusters[name] != []
            && r.world == there.(clusters :=
              there.clusters[name := there.clusters[name] + [Current(r.world.clusters[name])]])
            && AddsBroker(Current(there.clusters[name]), plan.value, Current(r.world.clusters[name])))
      && (!r.changed ==> r.world == there)
      && (c.busy && IsBelowUpper(checked) && plan.Some? ==> r.reply == Processed)
      && (!IsBelowUpper(checked) ==> r.reply == Skipped)
  {
    hide Biggest, IsAdmitted, WriteAll, Check, Enlarged;
    var name := a.cluster.value;
    var plan := ReadSpec(there, name, c.planned);
    if plan.Some? {
      EnlargedAddsBroker(Current(there.clusters[name]), plan.value, c.newConfig);
    }
    UpScaleResult(there, name, c);
  }

  lemma UpScaleResult(w: World, name: string, c: Circumstances)
    ensures
      var plan, r := ReadSpec(w, name, c.planned), UpScale(w, name, c);
      if plan.None? then r == Result(w, Error, false)
      else if c.busy then r == Result(w, Processed, false)
      else
        && name in w.clusters && w.clusters[name] != []
        && var spec := Enlarged(Current(w.clusters[name]), plan.value, c.newConfig);
        r == if CanCommit(w, name, c, spec) then
               Result(Added(w, name, spec), if c.written == Handled then Processed else Error, true)
             else Result(w, Error, false)
  {
    hide Biggest, IsAdmitted;
  }

  /**
   A downscale changes the spec exactly when the check was passed above the limit,
   the spec could be read, no broker has a task, a broker is known, and the change
   can be committed; it then removes the named broker, or the least loaded one
   when the alert names none.  A busy cluster is not scaled.
   */
  lemma DownScaleChangesExactlyWhen(w: World, a: Alert, c: Circumstances, checked: Spec, there: World)
    requires IsReached(w, a, c, checked, there) && a.command == "downScale" && a.cluster.Some?
    ensures
      var name, id, r := a.cluster.value, ToRemove(a, c), Examine(w, a, c);
      var plan := ReadSpec(there, name, c.planned);
      && (r.changed <==>
            && IsAboveLower(checked) && plan.Some? && !c.busy && id.Some?
            && name in there.clusters && there.clusters[name] != []
            && var s := Current(there.clusters[name]);
            CanCommit(there, name, c, s.(brokers := Without(s.brokers, id.value))))
      && (r.changed ==>
            && name in r.world.clusters && r.world.clusters[name] != [] && name in there.clusters
            && there.clusters[name] != []
            && r.world == there.(clusters :=
              there.clusters[name := there.clusters[name] + [Current(r.world.clusters[name])]])
            && RemovesBroker(Current(there.clusters[name]), id.value, Current(r.world.clusters[name])))
      && (!r.changed ==> r.world == there)
      && (c.busy && IsAboveLower(checked) && plan.Some? ==> r.reply == Processed)
      && (!IsAboveLower(checked) ==> r.reply == Skipped)
  {
    hide IsAdmitted, WriteAll, Check, Without, RemovesBroker;
    var name, id := a.cluster.value, ToRemove(a, c);
    var plan := ReadSpec(there, name, c.planned);
    if plan.Some? && id.Some? {
      WithoutRemovesBroker(Current(there.clusters[name]), id.value);
    }
    DownScaleResult(there, name, a, c);
  }

  lemma DownScaleResult(w: World, name: string, a: Alert, c: Circumstances)
    ensures
      var plan, id, r := ReadSpec(w, name, c.planned), ToRemove(a, c), DownScale(w, name, a, c);
      if plan.None? then r == Result(w, Error, false)
      else if c.busy then r == Result(w, Processed, false)
      else if id.None? then r == Result(w, Error, false)
      else
        && name in w.clusters && w.clusters[name] != []
        && var s := Current(w.clusters[name]);
        var spec := s.(brokers := Without(s.brokers, id.value));
        r == if CanCommit(w, name, c, spec) then
               Result(Added(w, name, spec), if c.written == Handled then Processed else Error, true)
             else Result(w, Error, false)
  {
    hide Without, IsAdmitted;
  }

  /** Commands that change no number of brokers: claims change configs alone, and other commands nothing. */
  lemma OtherCommandsChange(w: World, a: Alert, c: Circumstances, checked: Spec, there: World)
    requires IsReached(w, a, c, checked, there) && a.command !in {"upScale", "downScale"}
    ensures
      var r := Examine(w, a, c);
      && (a.command == "testing" ==> r == Result(there, Processed, false))
      && (a.command !in {"testing", "addPvc", "resizePvc"} ==> r == Result(there, Skipped, false))
      && (!r.changed ==> r.world == there)
      && (r.changed ==>
        && a.claim.Some? && a.claim.value in there.clusters && a.claim.value in r.world.clusters
        && there.clusters[a.claim.value] != [] && r.world.clusters[a.claim.value] != []
        && KeepsIds(Current(there.clusters[a.claim.value]), Current(r.world.clusters[a.claim.value])))
  {
    hide WriteAll, Check, IsAdmitted;
  }

  /** The same brokers in the same order under the same limits. */
  ghost predicate KeepsIds(before: Spec, after: Spec) {
    && after.limits == before.limits && |after.brokers| == |before.brokers|
    && forall i :: 0 <= i < |before.brokers| ==> after.brokers[i].id == before.brokers[i].id
  }

  /** A stored alert keeps what it says until it is resolved. */
  lemma StoredAlertsStay(w: World, e: Event, fp: string)
    requires fp in w.alerts && !(e.Deliver? && e.alert == fp && e.resolved)
    ensures
      var after := Next(w, e).alerts;
      fp in after && after[fp] == w.alerts[fp].(processed := after[fp].processed)
  {
    hide Examine, OwnWrite, WriteAll;
    if e.Handle? && e.alert in w.alerts {
      ExamineShape(w, w.alerts[e.alert], e.found);
    } else if e.Foreign? {
      WriteAllAlerts(w, [e.write]);
    }
  }
}
