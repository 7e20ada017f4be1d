/** Events about other clusters leave the operations of a cluster alone. */
module SchedulerForeign {
  import opened OperationTypes
  import opened ReconcileStep
  import opened SchedulerWorld
  import opened SchedulerInvariant
  import opened SchedulerSafety
  import opened SchedulerSending
  import opened SchedulerFinalizers

  /** An event that is not about operations of the cluster. */
  ghost predicate IsForeign(w: World, e: Event, cluster: string) {
    Allowed(w, e) &&
    match e
    case Create(op) => op.meta.cluster != cluster
    case SetPaused(name, _) => w.ops[name].meta.cluster != cluster
    case SetErrorPolicy(name, _) => w.ops[name].meta.cluster != cluster
    case Delete(name) => w.ops[name].meta.cluster != cluster
    case Reconciled(request, _) => request in w.ops ==> w.ops[request].meta.cluster != cluster
    case _ => true
  }

  ghost predicate IsForeignRun(w: World, events: seq<Event>, cluster: string)
    decreases |events|
  {
    events == [] || (IsForeign(w, events[0], cluster) && IsForeignRun(Apply(w, events[0]), events[1..], cluster))
  }

  ghost function PlayForeign(w: World, events: seq<Event>, cluster: string): World
    requires IsForeignRun(w, events, cluster)
    decreases |events|
  {
    if events == [] then w else PlayForeign(Apply(w, events[0]), events[1..], cluster)
  }

  /** The operations of the cluster are the same. */
  ghost predicate SameCluster(ops: Store, ops': Store, cluster: string) {
    && (forall n :: n in ops && ops[n].meta.cluster == cluster ==> n in ops' && ops'[n] == ops[n])
    && (forall n :: n in ops' && ops'[n].meta.cluster == cluster ==> n in ops && ops[n].meta.cluster == cluster)
  }

  lemma ForeignReconcile(w: World, request: string, env: Environment, cluster: string)
    requires Inv(w) && Allowed(w, Reconciled(request, env))
    requires request in w.ops && w.ops[request].meta.cluster != cluster
    ensures SameCluster(w.ops, Reconcile(w.ops, request, env).store, cluster)
  {
    hide Inv, Reconcile, Reports, IsAnswer, SendsSoundly;
    ReconcileSends(w, request, env);
    forall n | n in w.ops && n != request ensures n in Reconcile(w.ops, request, env).store {
      OthersStay(w.ops, request, env, n);
    }
  }

  /** Storing, changing or dropping one operation of another cluster. */
  lemma OneForeign(ops: Store, op: Operation, cluster: string)
    requires op.meta.cluster != cluster && (op.meta.name in ops ==> ops[op.meta.name].meta.cluster != cluster)
    ensures SameCluster(ops, ops[op.meta.name := op], cluster) && SameCluster(ops, ops - {op.meta.name}, cluster)
  {
  }

  lemma ForeignKeeps(w: World, e: Event, cluster: string)
    requires Inv(w) && IsForeign(w, e, cluster)
    ensures SameCluster(w.ops, Apply(w, e).ops, cluster)
  {
    hide Reconcile, Reports, IsAnswer, SameCluster, RecordOk, MutualExclusion;
    SameAsSelf(w.ops, cluster);
    match e
    case Create(op) => OneForeign(w.ops, op, cluster);
    case SetPaused(n, paused) => OneForeign(w.ops, w.ops[n].(meta := w.ops[n].meta.(paused := paused)), cluster);
    case SetErrorPolicy(n, policy) => OneForeign(w.ops, w.ops[n].(spec := OperationSpec(policy)), cluster);
    case Delete(n) => OneForeign(w.ops, w.ops[n].(meta := w.ops[n].meta.(deleting := true)), cluster);
    case Reconciled(request, env) =>
      if request in w.ops {
        ForeignReconcile(w, request, env, cluster);
      } else {
        NothingWithoutRequest(w.ops, request, env);
      }
    case _ =>
  }

  /** Events about other clusters are a run that keeps the operations of the cluster. */
  lemma {:induction false} ForeignRunKeeps(w: World, events: seq<Event>, cluster: string)
    requires Inv(w) && IsForeignRun(w, events, cluster)
    ensures IsRun(w, events) && Play(w, events) == PlayForeign(w, events, cluster)
    ensures Inv(PlayForeign(w, events, cluster)) && SameCluster(w.ops, PlayForeign(w, events, cluster).ops, cluster)
    decreases |events|
  {
    hide Inv, Apply, SameCluster, Reports, IsAnswer;
    if events == [] {
      SameAsSelf(w.ops, cluster);
    } else {
      var w1 := Apply(w, events[0]);
      StepKeeps(w, events[0]);
      ForeignKeeps(w, events[0], cluster);
      ForeignRunKeeps(w1, events[1..], cluster);
      SameTransitive(w.ops, w1.ops, PlayForeign(w1, events[1..], cluster).ops, cluster);
    }
  }

  lemma SameAsSelf(ops: Store, cluster: string)
    ensures SameCluster(ops, ops, cluster)
  {
  }

  lemma SameTransitive(a: Store, b: Store, c: Store, cluster: string)
    requires SameCluster(a, b, cluster) && SameCluster(b, c, cluster)
    ensures SameCluster(a, c, cluster)
  {
  }
}
