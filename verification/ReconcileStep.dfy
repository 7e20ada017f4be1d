/**
 One Reconcile of the CruiseControlOperation controller, on values: the stored
 operations of a namespace before and after, for given answers of the
 environment.  The object form is in OperationController.dfy.
 */
module ReconcileStep {
  import opened Wrappers
  import opened ApiServer
  import opened OperationTypes
  import opened OperationResult
  import opened OperationQueues
  import opened Selections

  type Store = map<string, Operation>

  datatype ClusterLookup = ClusterFound | ClusterMissing | LookupFailed

  datatype CruiseControlStatus = CruiseControlStatus(ready: bool, inExecution: bool)

  /** How many writes succeed before one fails, and whether that one takes effect all the same. */
  datatype Writes = Writes(count: nat, lost: bool)

  /** Everything a reconcile learns from outside, in the order it learns it. */
  datatype Environment = Environment(
    listing: seq<string>,                       // the order in which the API server lists the operations
    cluster: ClusterLookup,
    metaWrite: Delivery,                        // the update that adds or removes the finalizer
    scaler: bool,                               // a Cruise Control client can be made
    status: Option<CruiseControlStatus>,        // None: the status is not available
    userTasks: Option<seq<TaskResult>>,         // None: the user tasks are not available
    refreshWrites: Writes,                      // the status writes of polled operations
    pauseWrite: Delivery,                       // the update that pauses an operation
    execution: Option<TaskResult>,              // None: the request could not be built
    resultWrite: Delivery,                      // the write of the result; refused also when it is dropped
    refreshTime: int,
    selectTime: int,
    recordTime: int)

  /** A request sent to Cruise Control; `target` is the operation it was sent for. */
  datatype Execution = Execution(target: Operation, result: TaskResult, recorded: bool)

  datatype Outcome = Outcome(store: Store, execution: Option<Execution>)

  /** The listing names every stored operation once, and each under its own name. */
  ghost predicate IsListing(listing: seq<string>, store: Store) {
    && (forall i, j :: 0 <= i < j < |listing| ==> listing[i] != listing[j])
    && (forall n :: n in listing <==> n in store)
    && (forall n :: n in store ==> store[n].meta.name == n)
  }

  /** Removing the last finalizer of an operation that is being deleted deletes it. */
  function WithoutFinalizer(store: Store, name: string): Store
    requires name in store
  {
    if store[name].meta.deleting then store - {name}
    else store[name := store[name].(meta := store[name].meta.(finalizer := false))]
  }

  function WithFinalizer(store: Store, name: string): Store
    requires name in store
  {
    store[name := store[name].(meta := store[name].meta.(finalizer := true))]
  }

  predicate IsEligible(op: Operation, cluster: string) {
    op.meta.cluster == cluster && op.IsValid() && !op.IsDone()
  }

  /** The operations of the cluster that are not done, in listing order. */
  function Eligible(store: Store, listing: seq<string>, cluster: string): seq<Operation>
    requires forall n :: n in listing ==> n in store
  {
    if listing == [] then []
    else
      var n := listing[|listing| - 1];
      Eligible(store, listing[..|listing| - 1], cluster) + if IsEligible(store[n], cluster) then [store[n]] else []
  }

  function WriteStatus(store: Store, op: Operation): Store {
    if op.meta.name in store then store[op.meta.name := store[op.meta.name].(status := op.status)] else store
  }

  /** Write back the operations whose status changed, until a write fails. */
  function WriteChanged(store: Store, before: seq<Operation>, after: seq<Operation>, budget: Writes): (Store, bool)
    requires |before| == |after|
    decreases |before|
  {
    if before == [] then (store, true)
    else if before[0].status == after[0].status then WriteChanged(store, before[1..], after[1..], budget)
    else if budget.count == 0 then (if budget.lost then WriteStatus(store, after[0]) else store, false)
    else WriteChanged(WriteStatus(store, after[0]), before[1..], after[1..], budget.(count := budget.count - 1))
  }

  function Paused(op: Operation): Operation {
    op.(meta := op.meta.(paused := true))
  }

  /** The store after an update that pauses an operation. */
  function WithPause(store: Store, name: string, delivery: Delivery): Store
    requires name in store
  {
    if delivery.TakesEffect() then store[name := Paused(store[name])] else store
  }

  /** Send the chosen operation to Cruise Control and record the answer. */
  function Execute(store: Store, target: Operation, env: Environment): Outcome
    requires target.status.currentTask.Some?
  {
    if env.execution.None? then Outcome(store, None)
    else
      var (updated, parsed) := UpdateResult(target, env.execution, true, env.recordTime);
      var recorded := parsed && env.resultWrite.TakesEffect();
      Outcome(if recorded then WriteStatus(store, updated) else store,
              Some(Execution(target, env.execution.value, recorded)))
  }

  predicate Blocked(ops: seq<Operation>, target: Operation, status: CruiseControlStatus) {
    (status.inExecution || QueueOf(ops, InProgress) != []) && target.CurrentTaskKind() != StopExecution
  }

  function Guarded(store: Store, ops: seq<Operation>, target: Operation, status: CruiseControlStatus,
                   env: Environment): Outcome
    requires target.status.currentTask.Some?
  {
    if Blocked(ops, target, status) then Outcome(store, None) else Execute(store, target, env)
  }

  function Dispatch(store: Store, ops: seq<Operation>, status: CruiseControlStatus, env: Environment): Outcome
    requires forall x :: x in ops ==> x.status.currentTask.Some?
  {
    ChoiceIsSound(ops, env.selectTime);
    match Choose(ops, env.selectTime)
    case Nothing => Outcome(store, None)
    case Run(target) => Guarded(store, ops, target, status, env)
    case PauseThenRun(p, target) =>
      if p.meta.name !in store then Outcome(store, None)
      else
        var paused := WithPause(store, p.meta.name, env.pauseWrite);
        if env.pauseWrite != Handled then Outcome(paused, None) else Guarded(paused, ops, target, status, env)
  }

  /** The part of a reconcile that follows a successful health check. */
  function Schedule(store: Store, request: string, status: CruiseControlStatus, env: Environment): Outcome
    requires request in store && forall n :: n in env.listing ==> n in store
  {
    var before := Eligible(store, env.listing, store[request].meta.cluster);
    if env.userTasks.None? then Outcome(store, None)
    else
      var after := RefreshAll(before, ByTaskID(env.userTasks.value), env.refreshTime);
      var (written, ok) := WriteChanged(store, before, after, env.refreshWrites);
      if !ok || request !in written then Outcome(written, None)
      else if written[request].IsFinalizerNeeded() && !written[request].IsCurrentTaskRunning() then
        Outcome(if env.metaWrite.TakesEffect() then WithoutFinalizer(written, request) else written, None)
      else
        EligibleHaveTasks(store, env.listing, store[request].meta.cluster);
        Dispatch(written, after, status, env)
  }

  /** The part that follows once the Kafka cluster is found: finalizer, health check, scheduling. */
  function Admit(store: Store, request: string, env: Environment): Outcome
    requires request in store && forall n :: n in env.listing ==> n in store
  {
    var adds := !store[request].meta.deleting && !store[request].meta.finalizer;
    var admitted := if adds && env.metaWrite.TakesEffect() then WithFinalizer(store, request) else store;
    if adds && env.metaWrite != Handled then Outcome(admitted, None)
    else
      if !env.scaler || env.status.None? || !env.status.value.ready then Outcome(admitted, None)
      else Schedule(admitted, request, env.status.value, env)
  }

  function Reconcile(store: Store, request: string, env: Environment): Outcome
    requires forall n :: n in env.listing ==> n in store
  {
    if request !in store then Outcome(store, None)
    else
      var current := store[request];
      if current.CurrentTaskKind() == StatusRequest then Outcome(store, None)
      else if current.IsFinalizerNeeded() && current.IsDone() then
        Outcome(if env.metaWrite.TakesEffect() then WithoutFinalizer(store, request) else store, None)
      else if !current.IsValid() || current.meta.cluster == "" then Outcome(store, None)
      else
        match env.cluster
        case LookupFailed => Outcome(store, None)
        case ClusterMissing =>
          var drops := current.meta.deleting && env.metaWrite.TakesEffect();
          Outcome(if drops then WithoutFinalizer(store, request) else store, None)
        case ClusterFound => Admit(store, request, env)
  }

  lemma {:induction false} EligibleSpec(store: Store, listing: seq<string>, cluster: string)
    requires forall n :: n in listing ==> n in store
    ensures forall x :: x in Eligible(store, listing, cluster) <==>
      exists n :: n in listing && store[n] == x && IsEligible(x, cluster)
  {
    if listing != [] {
      var init, last := listing[..|listing| - 1], listing[|listing| - 1];
      assert listing == init + [last];
      EligibleSpec(store, init, cluster);
      forall x ensures x in Eligible(store, listing, cluster) <==>
        exists n :: n in listing && store[n] == x && IsEligible(x, cluster)
      {
        if x in Eligible(store, listing, cluster) {
          if x in Eligible(store, init, cluster) {
            var n :| n in init && store[n] == x && IsEligible(x, cluster);
            assert n in listing;
          } else {
            assert last in listing;
          }
        }
      }
    }
  }

  function StoredAt(store: Store, listing: seq<string>): seq<Operation>
    requires forall n :: n in listing ==> n in store
  {
    seq(|listing|, i requires 0 <= i < |listing| => store[listing[i]])
  }

  /** The eligible operations come in the order in which the API server lists them. */
  lemma {:induction false} EligibleIsFilter(store: Store, listing: seq<string>, cluster: string,
                                            keep: Operation -> bool)
    requires forall n :: n in listing ==> n in store
    requires forall x :: keep(x) <==> IsEligible(x, cluster)
    ensures Eligible(store, listing, cluster) == Filter(StoredAt(store, listing), keep)
  {
    hide IsEligible;
    if listing != [] {
      var front, all := listing[..|listing| - 1], StoredAt(store, listing);
      EligibleIsFilter(store, front, cluster, keep);
      assert all[..|all| - 1] == StoredAt(store, front);
    }
  }

  lemma EligibleHaveTasks(store: Store, listing: seq<string>, cluster: string)
    requires forall n :: n in listing ==> n in store
    ensures forall x :: x in Eligible(store, listing, cluster) ==> x.status.currentTask.Some?
  {
    EligibleSpec(store, listing, cluster);
  }
}
