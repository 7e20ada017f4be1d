/**
 The queue drains.  A round lets any events happen that are about other clusters,
 lets Cruise Control complete what it was given, lets more than the back-off
 pass, and reconciles once with a ready and idle Cruise Control and no failing
 write.
 */
module SchedulerDraining {
  import opened Wrappers
  import opened ApiServer
  import opened OperationTypes
  import opened OperationResult
  import opened OperationQueues
  import opened ReconcileStep
  import opened RefreshStage
  import opened SchedulerWorld
  import opened SchedulerInvariant
  import opened SchedulerSafety
  import opened SchedulerForeign
  import opened SchedulerWeights

  datatype Round = Round(foreign: seq<Event>, cc: CruiseControl, request: string, env: Environment)

  ghost predicate IsFair(w: World, r: Round, cluster: string) {
    && Allowed(w, Advance(r.cc)) && AllComplete(w.ops, r.cc, cluster)
    && Allowed(w.(cc := r.cc), Reconciled(r.request, r.env)) && Cooperates(r.env)
    && w.clock + RETRY_BACKOFF < r.env.refreshTime
    && r.request in w.ops && w.ops[r.request].IsValid() && w.ops[r.request].meta.cluster == cluster
    && cluster != ""
  }

  function After(w: World, r: Round): World
    requires forall n :: n in r.env.listing ==> n in w.ops
  {
    Apply(w.(cc := r.cc), Reconciled(r.request, r.env))
  }

  ghost predicate IsFairRun(w: World, rounds: seq<Round>, cluster: string)
    decreases |rounds|
  {
    rounds == [] ||
    (IsForeignRun(w, rounds[0].foreign, cluster) &&
     var w' := PlayForeign(w, rounds[0].foreign, cluster);
     IsFair(w', rounds[0], cluster) && IsFairRun(After(w', rounds[0]), rounds[1..], cluster))
  }

  ghost function PlayRounds(w: World, rounds: seq<Round>, cluster: string): World
    requires IsFairRun(w, rounds, cluster)
    decreases |rounds|
  {
    if rounds == [] then w
    else PlayRounds(After(PlayForeign(w, rounds[0].foreign, cluster), rounds[0]), rounds[1..], cluster)
  }

  lemma {:induction false} SameMeasure(ops: Store, ops': Store, names: seq<string>, cluster: string)
    requires SameCluster(ops, ops', cluster)
    ensures Measure(ops', names, cluster) == Measure(ops, names, cluster)
  {
    if names != [] {
      SameMeasure(ops, ops', names[..|names| - 1], cluster);
    }
  }

  // ---------------------------------------------------------------------------
  // Rounds

  lemma ReconcileReachesSchedule(w: World, request: string, env: Environment, cluster: string)
    requires request in w.ops && w.ops[request].IsValid() && w.ops[request].meta.cluster == cluster != ""
    requires Quiet(w.ops, cluster) && Cooperates(env) && forall n :: n in env.listing ==> n in w.ops
    ensures
      var admitted := if !w.ops[request].meta.finalizer then WithFinalizer(w.ops, request) else w.ops;
      Reconcile(w.ops, request, env) == Schedule(admitted, request, CruiseControlStatus(true, false), env)
  {
    hide Schedule;
  }

  /** A fair round makes the measure smaller until it is zero. */
  lemma RoundLightens(w: World, r: Round, names: seq<string>, cluster: string)
    requires forall n :: n in r.env.listing ==> n in w.ops
    requires Inv(w) && Quiet(w.ops, cluster) && IsFair(w, r, cluster) && Covers(names, w.ops, cluster)
    ensures Lighter(w.ops, After(w, r).ops, cluster)
    ensures Measure(After(w, r).ops, names, cluster) <= Measure(w.ops, names, cluster)
    ensures Measure(w.ops, names, cluster) > 0 ==>
      Measure(After(w, r).ops, names, cluster) < Measure(w.ops, names, cluster)
  {
    hide Inv, Reconcile, Schedule, WithFinalizer, Quiet, AllComplete, Reports, IsAnswer, Weight, Measure, Lighter,
         Cooperates, Covers;
    InvLater(w, r.cc, w.clock);
    var w1 := w.(cc := r.cc);
    AdmittedRound(w1, r, cluster);
    AfterIsReconcile(w1, r);
    var adds := !w.ops[r.request].meta.finalizer;
    var w2 := w1.(ops := if adds then WithFinalizer(w.ops, r.request) else w.ops);
    ScheduleLightens(w2, r.request, r.env, cluster);
    var ops' := Schedule(w2.ops, r.request, CruiseControlStatus(true, false), r.env).store;
    hide *;
    LighterFromAdmitted(w.ops, w2.ops, ops', cluster);
    MeasureFalls(w.ops, ops', names, cluster);
    ZeroMeansDone(w.ops, names, cluster);
    LighterKeys(w.ops, ops', cluster);
    forall n | n in w.ops && Weight(w.ops[n], cluster) > 0 ensures n in names {
      PendingIsCovered(w.ops, names, cluster, n);
    }
  }

  lemma PendingIsCovered(ops: Store, names: seq<string>, cluster: string, n: string)
    requires Covers(names, ops, cluster) && n in ops && Weight(ops[n], cluster) > 0
    ensures n in names
  {
  }

  lemma AfterIsReconcile(w: World, r: Round)
    requires forall n :: n in r.env.listing ==> n in w.ops
    ensures After(w, r).ops == Reconcile(w.ops, r.request, r.env).store
  {
    hide Reconcile;
  }

  lemma LighterKeys(ops: Store, ops': Store, cluster: string)
    requires Lighter(ops, ops', cluster)
    ensures ops'.Keys == ops.Keys
  {
  }

  lemma LighterFromAdmitted(ops: Store, admitted: Store, ops': Store, cluster: string)
    requires Lighter(ops, admitted, cluster) && Lighter(admitted, ops', cluster)
    requires forall n :: n in ops ==> Weight(admitted[n], cluster) == Weight(ops[n], cluster)
    ensures Lighter(ops, ops', cluster)
  {
    hide Weight;
  }

  /** The state in which a fair round starts scheduling. */
  lemma AdmittedRound(w: World, r: Round, cluster: string)
    requires Inv(w) && Quiet(w.ops, cluster) && AllComplete(w.ops, w.cc, cluster)
    requires r.request in w.ops && w.ops[r.request].IsValid() && w.ops[r.request].meta.cluster == cluster != ""
    requires Allowed(w, Reconciled(r.request, r.env)) && Cooperates(r.env)
    ensures
      var adds := !w.ops[r.request].meta.finalizer;
      var w' := w.(ops := if adds then WithFinalizer(w.ops, r.request) else w.ops);
      && Inv(w') && Quiet(w'.ops, cluster) && AllComplete(w'.ops, w'.cc, cluster) && IsListing(r.env.listing, w'.ops)
      && w'.ops.Keys == w.ops.Keys && w'.ops[r.request].IsValid() && w'.ops[r.request].meta.cluster == cluster
      && Reports(ByTaskID(r.env.userTasks.value), w'.cc, cluster, w'.ops)
      && Reconcile(w.ops, r.request, r.env) == Schedule(w'.ops, r.request, CruiseControlStatus(true, false), r.env)
      && (forall n :: n in w.ops ==> Weight(w'.ops[n], cluster) == Weight(w.ops[n], cluster))
      && Lighter(w.ops, w'.ops, cluster)
  {
    ReconcileReachesSchedule(w, r.request, r.env, cluster);
    AdmissionKeeps(w, r.request, r.env.listing);
    AdmissionFrame(w.ops, r.request, w.cc, cluster);
    assert w.(ops := w.ops) == w;
    assert IsListing(r.env.listing, w.ops);
    assert Reports(ByTaskID(r.env.userTasks.value), w.cc, cluster, w.ops);
    hide *;
  }

  lemma AdmissionFrame(ops: Store, request: string, cc: CruiseControl, cluster: string)
    requires request in ops
    requires Quiet(ops, cluster) && AllComplete(ops, cc, cluster)
    ensures
      var ops' := WithFinalizer(ops, request);
      && ops'.Keys == ops.Keys && Quiet(ops', cluster) && AllComplete(ops', cc, cluster) && Lighter(ops, ops', cluster)
      && (forall n :: n in ops ==> Weight(ops'[n], cluster) == Weight(ops[n], cluster))
      && ops'[request].IsValid() == ops[request].IsValid()
    ensures Lighter(ops, ops, cluster)
  {
  }

  /** Rounds keep the premises of a fair run. */
  lemma RoundKeeps(w: World, r: Round, cluster: string)
    requires Inv(w) && IsFair(w, r, cluster)
    ensures Inv(After(w, r))
  {
    hide Inv, Reconcile, Reports, IsAnswer, AllComplete, Cooperates;
    InvLater(w, r.cc, w.clock);
    StepKeeps(w.(cc := r.cc), Reconciled(r.request, r.env));
  }

  lemma LighterKeepsQuiet(ops: Store, ops': Store, names: seq<string>, cluster: string)
    requires Lighter(ops, ops', cluster) && Quiet(ops, cluster) && Covers(names, ops, cluster)
    ensures Quiet(ops', cluster) && Covers(names, ops', cluster) && SameNames(ops, ops', cluster)
  {
    hide Weight;
  }

  lemma SameKeepsQuiet(ops: Store, ops': Store, names: seq<string>, cluster: string)
    requires SameCluster(ops, ops', cluster) && Quiet(ops, cluster) && Covers(names, ops, cluster)
    ensures Quiet(ops', cluster) && Covers(names, ops', cluster) && SameNames(ops, ops', cluster)
  {
  }

  /** The cluster has the same operations, in whatever state. */
  ghost predicate SameNames(ops: Store, ops': Store, cluster: string) {
    forall n :: (n in ops && ops[n].meta.cluster == cluster) <==> (n in ops' && ops'[n].meta.cluster == cluster)
  }

  /** After k fair rounds the measure has fallen by k, or everything is done. */
  lemma {:induction false} RoundsDrain(w: World, rounds: seq<Round>, names: seq<string>, cluster: string)
    requires Inv(w) && Quiet(w.ops, cluster) && IsFairRun(w, rounds, cluster) && Covers(names, w.ops, cluster)
    ensures SameNames(w.ops, PlayRounds(w, rounds, cluster).ops, cluster)
    ensures
      var left := Measure(PlayRounds(w, rounds, cluster).ops, names, cluster);
      left == 0 || left + |rounds| <= Measure(w.ops, names, cluster)
    decreases |rounds|
  {
    hide Inv, Quiet, After, Measure, Lighter, AllComplete, Cooperates, Reports, IsAnswer, Advances, Covers,
         SameCluster, IsForeignRun, PlayForeign, Play, IsRun;
    if rounds != [] {
      var r := rounds[0];
      var w1 := PlayForeign(w, r.foreign, cluster);
      ForeignRunKeeps(w, r.foreign, cluster);
      SameKeepsQuiet(w.ops, w1.ops, names, cluster);
      SameMeasure(w.ops, w1.ops, names, cluster);
      RoundLightens(w1, r, names, cluster);
      RoundKeeps(w1, r, cluster);
      LighterKeepsQuiet(w1.ops, After(w1, r).ops, names, cluster);
      RoundsDrain(After(w1, r), rounds[1..], names, cluster);
    }
  }

  /**
   From any reachable state in which nothing of the cluster is being deleted, as
   many fair rounds as the measure says, and never more than three per operation
   of the cluster, leave every supported operation of the cluster done, whatever
   happens to other clusters meanwhile.
   */
  lemma QueueDrains(start: World, events: seq<Event>, rounds: seq<Round>, names: seq<string>, cluster: string)
    requires IsInitial(start) && IsRun(start, events)
    requires
      var w := Play(start, events);
      && Quiet(w.ops, cluster) && IsFairRun(w, rounds, cluster) && Covers(names, w.ops, cluster)
      && |rounds| >= Measure(w.ops, names, cluster)
    ensures
      var w := Play(start, events);
      var ops := PlayRounds(w, rounds, cluster).ops;
      && SameNames(w.ops, ops, cluster) && Measure(w.ops, names, cluster) <= 3 * |names|
      && forall n :: n in ops && ops[n].meta.cluster == cluster && ops[n].IsValid() ==> ops[n].IsDone()
  {
    InitialInv(start);
    RunKeeps(start, events);
    var w := Play(start, events);
    RoundsDrain(w, rounds, names, cluster);
    MeasureBound(w.ops, names, cluster);
    var ops := PlayRounds(w, rounds, cluster).ops;
    hide Play, PlayRounds, Inv, IsFairRun, Measure, Quiet, IsRun;
    ZeroMeansDone(ops, names, cluster);
    forall n | n in ops && ops[n].meta.cluster == cluster && ops[n].IsValid() ensures ops[n].IsDone() {
      WeightMeansEligible(ops[n], cluster);
    }
  }
}
