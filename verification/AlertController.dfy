/** The store of alerts and the handling of alerts as the objects that the dispatcher mutates. */
module AlertController {
  import opened Wrappers
  import opened ApiServer
  import opened ScaleParameters
  import opened AlertScaling

  /** The API server, with every version of each cluster's spec. */
  class Server {
    var clusters: map<string, seq<Spec>>

    method Get(name: string, version: Option<nat>) returns (r: Option<Spec>)
      ensures forall alerts :: r == ReadSpec(World(clusters, alerts), name, version)
      ensures r.Some? ==> version.Some?
    {
      if name !in clusters || version.None? || version.value >= |clusters[name]| {
        return None;
      }
      return Some(clusters[name][version.value]);
    }

    /** Others change specs. */
    method Others(writes: seq<Write>)
      modifies this
      ensures forall alerts :: World(clusters, alerts) == WriteAll(World(old(clusters), alerts), writes)
    {
      for i := 0 to |writes|
        invariant forall alerts :: World(clusters, alerts) == WriteAll(World(old(clusters), alerts), writes[..i])
      {
        assert writes[..i + 1][..i] == writes[..i];
        var x := writes[i];
        ghost var before := clusters;
        if x.cluster in clusters && IsAdmitted(x.spec) {
          clusters := clusters[x.cluster := clusters[x.cluster] + [x.spec]];
        }
        forall alerts ensures World(clusters, alerts) == WriteAll(World(old(clusters), alerts), writes[..i + 1]) {
          assert World(before, alerts) == WriteAll(World(old(clusters), alerts), writes[..i]);
        }
      }
      assert writes[..|writes|] == writes;
    }

    /** Writes the status of the cluster that was read, unless that version is outdated. */
    method UpdateStatus(name: string, at: Attempt) returns (answer: StatusReply)
      ensures forall alerts :: answer == AlertScaling.WriteStatus(World(clusters, alerts), name, at)
    {
      if name !in clusters || at.read.None? || at.read.value >= |clusters[name]| || at.delivery != Handled {
        return StatusFailed;
      }
      if at.conflicts || at.read.value + 1 != |clusters[name]| {
        return StatusConflict;
      }
      return StatusWritten(clusters[name][at.read.value]);
    }

    method Update(name: string, version: nat, spec: Spec, written: Delivery) returns (reply: Reply, changed: bool)
      modifies this
      ensures forall alerts ::
        Result(World(clusters, alerts), reply, changed) ==
          Commit(World(old(clusters), alerts), name, version, spec, written)
    {
      if name !in clusters || version + 1 != |clusters[name]| || !IsAdmitted(spec) || !written.TakesEffect() {
        return Error, false;
      }
      clusters := clusters[name := clusters[name] + [spec]];
      return if written == Handled then Processed else Error, true;
    }
  }

  method BiggestId(brokers: seq<Broker>) returns (biggest: int)
    ensures biggest == Biggest(brokers)
  {
    biggest := 0;
    for i := 0 to |brokers|
      invariant biggest == Biggest(brokers[..i])
    {
      assert brokers[..i + 1][..i] == brokers[..i];
      if brokers[i].id > biggest {
        biggest := brokers[i].id;
      }
    }
    assert brokers[..|brokers|] == brokers;
  }

  /** Moves the brokers to keep to the front of their own array; `kept` counts them. */
  method FilterBrokers(brokers: array<Broker>, id: string) returns (kept: nat)
    modifies brokers
    ensures kept <= brokers.Length && brokers[..kept] == Without(old(brokers[..]), id)
  {
    hide IdText;
    kept := 0;
    ghost var was := brokers[..];
    for i := 0 to brokers.Length
      invariant kept <= i
      invariant brokers[..kept] == Without(was[..i], id)
      invariant forall j :: i <= j < brokers.Length ==> brokers[j] == was[j]
    {
      assert was[..i + 1][..i] == was[..i];
      var broker := brokers[i];
      if IdText(broker.id) != id {
        ghost var front := brokers[..kept];
        brokers[kept] := broker;
        assert brokers[..kept + 1] == front + [broker];
        kept := kept + 1;
      }
    }
    assert was[..brokers.Length] == was;
  }

  method RemoveBroker(server: Server, name: string, id: string, c: Circumstances) returns (reply: Reply, changed: bool)
    modifies server
    ensures forall alerts ::
      var w := World(old(server.clusters), alerts);
      var base := ReadSpec(w, name, c.changed);
      Result(World(server.clusters, alerts), reply, changed) ==
      if base.None? then Result(w, Error, false)
      else Commit(w, name, c.changed.value, base.value.(brokers := Without(base.value.brokers, id)), c.written)
  {
    var base := server.Get(name, c.changed);
    if base.None? {
      return Error, false;
    }
    var brokers := base.value.brokers;
    var slots := new Broker[|brokers|](i requires 0 <= i < |brokers| => brokers[i]);
    assert slots[..] == brokers;
    var kept := FilterBrokers(slots, id);
    reply, changed := server.Update(name, c.changed.value, base.value.(brokers := slots[..kept]), c.written);
  }

  method ScaleDown(server: Server, name: string, a: Alert, c: Circumstances) returns (reply: Reply, changed: bool)
    modifies server
    ensures forall alerts ::
      Result(World(server.clusters, alerts), reply, changed) ==
        DownScale(World(old(server.clusters), alerts), name, a, c)
  {
    hide Without, Commit, ReadSpec;
    var plan := server.Get(name, c.planned);
    if plan.None? {
      return Error, false;
    }
    if c.busy {
      return Processed, false;
    }
    var id := if a.broker.Some? then a.broker else c.leastLoaded;
    if id.None? {
      return Error, false;
    }
    reply, changed := RemoveBroker(server, name, id.value, c);
  }

  method ScaleUp(server: Server, name: string, c: Circumstances) returns (reply: Reply, changed: bool)
    modifies server
    ensures forall alerts ::
      Result(World(server.clusters, alerts), reply, changed) == UpScale(World(old(server.clusters), alerts), name, c)
  {
    hide Biggest, Commit;
    var plan := server.Get(name, c.planned);
    if plan.None? {
      return Error, false;
    }
    if c.busy {
      return Processed, false;
    }
    var biggest := BiggestId(plan.value.brokers);
    var base := server.Get(name, c.changed);
    if base.None? {
      return Error, false;
    }
    reply, changed := server.Update(name, c.changed.value,
                             base.value.(brokers := base.value.brokers + [Broker(biggest + 1, c.newConfig)]),
                             c.written);
  }

  method EditClaims(server: Server, a: Alert, c: Circumstances) returns (reply: Reply, changed: bool)
    modifies server
    ensures forall alerts ::
      Result(World(server.clusters, alerts), reply, changed) == ChangeClaims(World(old(server.clusters), alerts), a, c)
  {
    hide Commit;
    if a.claim.None? || c.claim.ClaimFailed? {
      return Error, false;
    }
    if c.claim.ClaimSkipped? {
      return Processed, false;
    }
    var base := server.Get(a.claim.value, c.changed);
    if base.None? {
      return Error, false;
    }
    reply, changed := server.Update(a.claim.value, c.changed.value,
                             base.value.(brokers := Reconfigured(base.value.brokers, c.claim.configs)), c.written);
  }

  method ExamineAlert(server: Server, a: Alert, c: Circumstances) returns (reply: Reply, changed: bool)
    modifies server
    ensures forall alerts ::
      Result(World(server.clusters, alerts), reply, changed) == Examine(World(old(server.clusters), alerts), a, c)
  {
    hide UpScale, DownScale, ChangeClaims, Process, WriteAll, Check;
    var name := if a.cluster.Some? then a.cluster else a.claim;
    if name.None? {
      return Error, false;
    }
    var spec := CheckCluster(server, name.value, c);
    if spec.None? {
      return Error, false;
    }
    if !c.running {
      return Skipped, false;
    }
    var down, up := false, false;
    if spec.value.limits.Some? {
      if |spec.value.brokers| <= spec.value.limits.value.down {
        down := true;
      }
      if spec.value.limits.value.up > 0 && |spec.value.brokers| >= spec.value.limits.value.up {
        up := true;
      }
    }
    server.Others(c.between);
    reply, changed := ProcessAlert(server, a, c, down, up);
  }

  /** Reads the cluster and writes its status, once more after a conflict. */
  method CheckCluster(server: Server, name: string, c: Circumstances) returns (spec: Option<Spec>)
    modifies server
    ensures forall alerts ::
      (World(server.clusters, alerts), spec) == Check(World(old(server.clusters), alerts), name, c)
  {
    hide WriteAll, AlertScaling.WriteStatus;
    server.Others(c.first.others);
    var answer := server.UpdateStatus(name, c.first);
    if answer.StatusConflict? {
      server.Others(c.again.others);
      answer := server.UpdateStatus(name, c.again);
    }
    return if answer.StatusWritten? then Some(answer.spec) else None;
  }

  method ProcessAlert(server: Server, a: Alert, c: Circumstances, down: bool, up: bool)
    returns (reply: Reply, changed: bool)
    modifies server
    ensures forall alerts ::
      Result(World(server.clusters, alerts), reply, changed) ==
        Process(World(old(server.clusters), alerts), a, c, down, up)
  {
    hide UpScale, DownScale, ChangeClaims;
    if a.command == ADD_PVC || a.command == RESIZE_PVC {
      reply, changed := EditClaims(server, a, c);
    } else if a.command == DOWN_SCALE {
      if a.cluster.None? {
        return Error, false;
      }
      if down {
        return Skipped, false;
      }
      reply, changed := ScaleDown(server, a.cluster.value, a, c);
    } else if a.command == UP_SCALE {
      if a.cluster.None? {
        return Error, false;
      }
      if up {
        return Skipped, false;
      }
      reply, changed := ScaleUp(server, a.cluster.value, c);
    } else if a.command == TESTING {
      return Processed, false;
    } else {
      return Skipped, false;
    }
  }

  class CurrentAlerts {
    var alerts: map<string, Alert>

    method AddAlert(fp: string, a: Alert)
      modifies this
      ensures alerts == if fp in old(alerts) then old(alerts) else old(alerts)[fp := a.(processed := false)]
    {
      if fp !in alerts {
        alerts := alerts[fp := a.(processed := false)];
      }
    }

    method AlertGC(fp: string, resolved: bool)
      modifies this
      ensures alerts == if resolved then old(alerts) - {fp} else old(alerts)
    {
      if resolved {
        alerts := alerts - {fp};
      }
    }

    /** Handles a stored alert once; an alert that was skipped or failed is tried again the next time. */
    method Handle(server: Server, fp: string, c: Circumstances)
      modifies this, server
      ensures World(server.clusters, alerts) == HandleAlert(World(old(server.clusters), old(alerts)), fp, c)
    {
      hide Examine;
      if fp !in alerts {
        return;
      }
      if !alerts[fp].processed {
        ghost var w := World(server.clusters, alerts);
        var reply, changed := ExamineAlert(server, alerts[fp], c);
        assert Result(World(server.clusters, alerts), reply, changed) == Examine(w, alerts[fp], c);
        if reply != Error {
          alerts := alerts[fp := alerts[fp].(processed := reply == Processed)];
        }
      }
    }

    /** Stores or resolves what arrived, then handles every stored alert once, in any order. */
    method Dispatch(server: Server, arrived: seq<Event>, found: string -> Circumstances) returns (order: seq<string>)
      requires forall i :: 0 <= i < |arrived| ==> arrived[i].Deliver?
      modifies this, server
      ensures World(server.clusters, alerts) ==
        After(World(old(server.clusters), old(alerts)), arrived + Handlings(order, found))
      ensures NoRepeats(order)
      ensures forall fp :: fp in order <==> fp in After(World(old(server.clusters), old(alerts)), arrived).alerts
    {
      hide Next;
      ghost var w := World(server.clusters, alerts);
      for i := 0 to |arrived|
        invariant World(server.clusters, alerts) == After(w, arrived[..i])
      {
        assert arrived[..i + 1][..i] == arrived[..i];
        Receive(server, arrived[i]);
      }
      assert arrived[..|arrived|] == arrived;
      order := HandleAll(server, w, arrived, found);
    }

    method HandleAll(server: Server, ghost w: World, ghost arrived: seq<Event>, found: string -> Circumstances)
      returns (order: seq<string>)
      requires World(server.clusters, alerts) == After(w, arrived)
      modifies this, server
      ensures World(server.clusters, alerts) == After(w, arrived + Handlings(order, found))
      ensures NoRepeats(order) && forall fp :: fp in order <==> fp in old(alerts)
    {
      hide After, HandleAlert, NoRepeats;
      order := [];
      assert arrived + Handlings(order, found) == arrived;
      var left := alerts.Keys;
      NoRepeatsInNothing();
      while left != {}
        invariant World(server.clusters, alerts) == After(w, arrived + Handlings(order, found))
        invariant left <= old(alerts).Keys && NoRepeats(order)
        invariant forall fp :: fp in order <==> fp in old(alerts).Keys - left
        decreases |left|
      {
        var fp :| fp in left;
        HandleStep(w, arrived, order, found, fp);
        NoRepeatsInOneMore(order, fp);
        Handle(server, fp, found(fp));
        order := order + [fp];
        left := left - {fp};
      }
    }

    method Receive(server: Server, e: Event)
      requires e.Deliver?
      modifies this
      ensures World(server.clusters, alerts) == Next(World(server.clusters, old(alerts)), e)
    {
      AddAlert(e.alert, e.content);
      AlertGC(e.alert, e.resolved);
    }
  }

  function Handlings(order: seq<string>, found: string -> Circumstances): seq<Event> {
    seq(|order|, i requires 0 <= i < |order| => Event.Handle(order[i], found(order[i])))
  }

  lemma NoRepeatsInNothing()
    ensures NoRepeats([])
  {
  }

  lemma NoRepeatsInOneMore(order: seq<string>, fp: string)
    requires NoRepeats(order) && fp !in order
    ensures NoRepeats(order + [fp])
  {
    assert forall i :: 0 <= i < |order| ==> order[i] in order;
  }

  lemma HandleStep(w: World, arrived: seq<Event>, order: seq<string>, found: string -> Circumstances, fp: string)
    ensures After(w, arrived + Handlings(order + [fp], found)) ==
      HandleAlert(After(w, arrived + Handlings(order, found)), fp, found(fp))
  {
    var events := arrived + Handlings(order + [fp], found);
    assert events[..|events| - 1] == arrived + Handlings(order, found);
    assert events[|events| - 1] == Event.Handle(fp, found(fp));
  }
}
