/**
 The other writer of a cluster's status: it sets one aspect of the state of some
 brokers, and after a conflict reads again and sets it again, once.
 */
module BrokerStatusUpdate {
  import opened Wrappers
  import opened ApiServer
  import opened TaskTypes
  import opened TaskTracking
  import opened TaskTracker
  import opened StatusStore

  datatype Graceful = Graceful(state: BrokerState, ref: Option<string>, volumes: map<string, VolumeStatus>)

  /**
   What is set: for all the brokers alike or by broker; `Other` stands for the
   fields outside the graceful actions.
   */
  datatype Change =
    | SetGraceful(all: Graceful)
    | SetGracefulByBroker(byBroker: map<string, Graceful>)
    | SetVolumes(volumes: map<string, VolumeStatus>)
    | SetVolumesByBroker(volumesByBroker: map<string, map<string, VolumeStatus>>)
    | SetOther(rest: string)

  const NO_STATUS := BrokerStatus(NO_BROKER_STATE, None, map[], "")
  const NO_GRACEFUL := Graceful(NO_BROKER_STATE, None, map[])

  function WithGraceful(b: BrokerStatus, g: Graceful): BrokerStatus {
    b.(state := g.state, ref := g.ref, volumes := g.volumes)
  }

  function Changed(b: BrokerStatus, id: string, change: Change): BrokerStatus {
    match change
    case SetGraceful(g) => WithGraceful(b, g)
    case SetGracefulByBroker(m) => WithGraceful(b, if id in m then m[id] else NO_GRACEFUL)
    case SetVolumes(vs) => b.(volumes := b.volumes + vs)
    case SetVolumesByBroker(m) => b.(volumes := b.volumes + if id in m then m[id] else map[])
    case SetOther(rest) => b.(rest := rest)
  }

  function StateOf(st: Status, id: string): BrokerStatus {
    if id in st then st[id] else NO_STATUS
  }

  /** The status with the change made for the brokers, one after the other. */
  function Generated(st: Status, ids: seq<string>, change: Change): Status {
    if ids == [] then st
    else
      var front, id := Generated(st, ids[..|ids| - 1], change), ids[|ids| - 1];
      front[id := Changed(StateOf(front, id), id, change)]
  }

  lemma ChangedTwice(b: BrokerStatus, id: string, change: Change)
    ensures Changed(Changed(b, id, change), id, change) == Changed(b, id, change)
  {
  }

  /** The named brokers are changed, and created if they are missing; no other broker is touched. */
  lemma {:induction false} GeneratedSpec(st: Status, ids: seq<string>, change: Change)
    ensures forall k :: k in Generated(st, ids, change) <==> k in st || k in ids
    ensures forall k :: k in Generated(st, ids, change) ==>
      Generated(st, ids, change)[k] == if k in ids then Changed(StateOf(st, k), k, change) else st[k]
  {
    hide Changed;
    if ids != [] {
      var front, id := ids[..|ids| - 1], ids[|ids| - 1];
      assert ids == front + [id];
      GeneratedSpec(st, front, change);
      if id in front {
        ChangedTwice(StateOf(st, id), id, change);
      }
    }
  }

  /** Making the change again changes nothing. */
  lemma GeneratedTwice(st: Status, ids: seq<string>, change: Change)
    ensures Generated(Generated(st, ids, change), ids, change) == Generated(st, ids, change)
  {
    hide Changed, Generated;
    var once := Generated(st, ids, change);
    GeneratedSpec(st, ids, change);
    GeneratedSpec(once, ids, change);
    forall k | k in ids
      ensures Changed(Changed(StateOf(st, k), k, change), k, change) == Changed(StateOf(st, k), k, change)
    {
      ChangedTwice(StateOf(st, k), k, change);
    }
  }

  /** The volumes afterwards: those that are set, and the others as they were. */
  ghost predicate SetsVolumes(before: map<string, VolumeStatus>, after: map<string, VolumeStatus>,
                              given: map<string, VolumeStatus>)
  {
    && (forall v :: v in after <==> v in before || v in given)
    && (forall v :: v in after ==> after[v] == if v in given then given[v] else before[v])
  }

  /**
   What a named broker becomes: a graceful action replaces state, operation and
   volumes, and is cleared for a broker that the change does not mention; setting
   volumes keeps the volumes that it does not mention; and each kind of change
   leaves the other fields as they were.
   */
  lemma GeneratedFields(st: Status, ids: seq<string>, change: Change, k: string)
    requires k in ids
    ensures k in Generated(st, ids, change)
    ensures
      var b, after := StateOf(st, k), Generated(st, ids, change)[k];
      match change
      case SetGraceful(g) => after == BrokerStatus(g.state, g.ref, g.volumes, b.rest)
      case SetGracefulByBroker(m) =>
        after == if k in m then BrokerStatus(m[k].state, m[k].ref, m[k].volumes, b.rest)
        else BrokerStatus(OtherBrokerState(""), None, map[], b.rest)
      case SetVolumes(vs) =>
        SetsVolumes(b.volumes, after.volumes, vs) && (after.state, after.ref, after.rest) == (b.state, b.ref, b.rest)
      case SetVolumesByBroker(m) =>
        && SetsVolumes(b.volumes, after.volumes, if k in m then m[k] else map[])
        && (after.state, after.ref, after.rest) == (b.state, b.ref, b.rest)
      case SetOther(rest) => after == BrokerStatus(b.state, b.ref, b.volumes, rest)
  {
    GeneratedSpec(st, ids, change);
    hide Generated;
  }

  method GenerateBrokerState(ids: seq<string>, cluster: KafkaCluster, change: Change)
    modifies cluster
    ensures cluster.status == Generated(old(cluster.status), ids, change) && cluster.version == old(cluster.version)
  {
    var st := cluster.status;
    var brokers := st;
    for i := 0 to |ids|
      invariant brokers == Generated(st, ids[..i], change)
      invariant cluster.version == old(cluster.version)
    {
      assert ids[..i + 1][..i] == ids[..i];
      var b := NO_STATUS;
      if ids[i] in brokers {
        b := brokers[ids[i]];
      }
      match change {
        case SetGraceful(g) =>
          b := b.(state := g.state, ref := g.ref, volumes := g.volumes);
        case SetGracefulByBroker(m) =>
          var g := if ids[i] in m then m[ids[i]] else NO_GRACEFUL;
          b := b.(state := g.state, ref := g.ref, volumes := g.volumes);
        case SetVolumes(vs) =>
          var merged := PutVolumes(b.volumes, vs);
          b := b.(volumes := merged);
        case SetVolumesByBroker(m) =>
          var merged := PutVolumes(b.volumes, if ids[i] in m then m[ids[i]] else map[]);
          b := b.(volumes := merged);
        case SetOther(rest) =>
          b := b.(rest := rest);
      }
      brokers := brokers[ids[i] := b];
    }
    assert ids[..|ids|] == ids;
    cluster.status := brokers;
  }

  /** Copies volume states, in any order. */
  method PutVolumes(volumes: map<string, VolumeStatus>, more: map<string, VolumeStatus>)
    returns (r: map<string, VolumeStatus>)
    ensures r == volumes + more
  {
    r := volumes;
    var left := more.Keys;
    while left != {}
      invariant left <= more.Keys
      invariant r.Keys == volumes.Keys + (more.Keys - left)
      invariant forall p :: p in r ==> r[p] == if p in more && p !in left then more[p] else volumes[p]
      decreases |left|
    {
      var p :| p in left;
      r := r[p := more[p]];
      left := left - {p};
    }
  }

  /** Every version written from `start` on makes the change in the version it replaced. */
  ghost predicate Makes(history: seq<Version>, start: nat, ids: seq<string>, change: Change) {
    forall k :: 0 < start <= k < |history| && history[k].own ==>
      history[k].status == Generated(history[k - 1].status, ids, change)
  }

  /** What happens around an update of the status and around the update of the whole object that may follow. */
  datatype Turns = Turns(status: Turn, whole: Turn)

  /** One update of a status made from some version, after others have written. */
  method TryUpdate(store: Store, cluster: KafkaCluster, turn: Turn, ids: seq<string>, change: Change, ghost start: nat)
    returns (error: Option<ApiError>)
    requires store.Valid() && start <= |store.history| && Makes(store.history, start, ids, change)
    requires Carries(store, cluster, ids, change)
    modifies store, cluster
    ensures store.Valid() && old(store.history) <= store.history && store.updates == old(store.updates) + 1
    ensures Makes(store.history, start, ids, change)
    ensures error.None? ==> OwnWrites(store.history) == OwnWrites(old(store.history)) + 1
    ensures error in {Some(Conflict), Some(NotFound)} ==> OwnWrites(store.history) == OwnWrites(old(store.history))
    ensures error == Some(NotFound) <==> turn.update == Missing
    ensures OwnWrites(store.history) <= OwnWrites(old(store.history)) + 1
  {
    hide Generated, Makes;
    MakesExtends(store.history, start, ids, change, OthersOf(turn.beforeUpdate));
    store.Others(turn.beforeUpdate);
    ghost var h := store.history;
    if cluster.version + 1 == |h| {
      MakesCommit(h, start, ids, change, cluster.status);
    }
    error := store.Update(cluster, turn.update);
    assert store.history == h || store.history == h + [Version(cluster.status, true)];
  }

  /** A cluster object holds some version of the store with the change made in it. */
  ghost predicate Carries(store: Store, cluster: KafkaCluster, ids: seq<string>, change: Change)
    reads store, cluster
  {
    cluster.version < |store.history| && cluster.status == Generated(store.history[cluster.version].status, ids, change)
  }

  /** Updates the status, and the whole object when the status is not found: that leaves the status as it is. */
  method UpdateStatusOrObject(store: Store, cluster: KafkaCluster, turns: Turns, ids: seq<string>, change: Change,
                              ghost start: nat)
    returns (error: Option<ApiError>)
    requires store.Valid() && start <= |store.history| && Makes(store.history, start, ids, change)
    requires Carries(store, cluster, ids, change)
    modifies store, cluster
    ensures store.Valid() && old(store.history) <= store.history && store.updates <= old(store.updates) + 2
    ensures Makes(store.history, start, ids, change)
    ensures error.None? ==>
      OwnWrites(store.history) == OwnWrites(old(store.history)) + if turns.status.update == Missing then 0 else 1
    ensures error == Some(Conflict) || turns.status.update == Missing ==>
      OwnWrites(store.history) == OwnWrites(old(store.history))
    ensures OwnWrites(store.history) <= OwnWrites(old(store.history)) + 1
  {
    hide Generated, Makes, OwnWrites;
    error := TryUpdate(store, cluster, turns.status, ids, change, start);
    if error == Some(NotFound) {
      MakesExtends(store.history, start, ids, change, OthersOf(turns.whole.beforeUpdate));
      store.Others(turns.whole.beforeUpdate);
      error := store.UpdateObject(cluster, turns.whole.update);
    }
  }

  lemma MakesExtends(history: seq<Version>, start: nat, ids: seq<string>, change: Change, more: seq<Version>)
    requires Makes(history, start, ids, change) && start <= |history| && forall k :: 0 <= k < |more| ==> !more[k].own
    ensures Makes(history + more, start, ids, change)
  {
    hide Generated;
    var h := history + more;
    forall k | 0 < start <= k < |h| && h[k].own ensures h[k].status == Generated(h[k - 1].status, ids, change) {
      assert h[k] == history[k] && h[k - 1] == history[k - 1];
    }
  }

  lemma MakesCommit(history: seq<Version>, start: nat, ids: seq<string>, change: Change, st: Status)
    requires Makes(history, start, ids, change) && 0 < |history| && start <= |history|
    requires st == Generated(history[|history| - 1].status, ids, change)
    ensures Makes(history + [Version(st, true)], start, ids, change)
  {
    hide Generated;
    var h := history + [Version(st, true)];
    forall k | 0 < start <= k < |h| && h[k].own ensures h[k].status == Generated(h[k - 1].status, ids, change) {
      assert k < |history| ==> h[k] == history[k] && h[k - 1] == history[k - 1];
    }
  }

  /**
   At most two attempts of at most two updates; every version written makes the
   change in exactly the version it replaced.  A success wrote exactly one
   version, or none, but only when an update of the status was answered with
   not found; if all of them were, nothing is ever written.
   */
  method UpdateBrokerStatus(store: Store, ids: seq<string>, cluster: KafkaCluster, change: Change, first: Turns,
                            second: Turns)
    returns (error: Option<ApiError>)
    requires store.Valid()
    requires cluster.version < |store.history| && cluster.status == store.history[cluster.version].status
    modifies store, cluster
    ensures store.Valid() && old(store.history) <= store.history && store.updates <= old(store.updates) + 4
    ensures Makes(store.history, |old(store.history)|, ids, change)
    ensures OwnWrites(store.history) <= OwnWrites(old(store.history)) + 1
    ensures error.None? && OwnWrites(store.history) == OwnWrites(old(store.history)) ==>
      Missing in {first.status.update, second.status.update}
    ensures first.status.update == second.status.update == Missing ==>
      OwnWrites(store.history) == OwnWrites(old(store.history))
  {
    hide Generated, OwnWrites;
    ghost var start := |store.history|;
    GenerateBrokerState(ids, cluster, change);
    error := UpdateStatusOrObject(store, cluster, first, ids, change, start);
    if error == Some(Conflict) {
      MakesExtends(store.history, start, ids, change, OthersOf(first.whole.beforeGet));
      store.Others(first.whole.beforeGet);
      var ok := store.Get(cluster, first.whole.get);
      if !ok {
        return Some(Failure);
      }
      GenerateBrokerState(ids, cluster, change);
      error := UpdateStatusOrObject(store, cluster, second, ids, change, start);
    }
  }

  // ---------------------------------------------------------------------------
  // The two writers

  /** A broker that the change creates has no task, or one that leaves its state empty. */
  ghost predicate CreatedStayEmpty(st: Status, ids: seq<string>, tasks: seq<TrackedTask>) {
    forall k :: k in ids && k !in st && TaskAt(tasks, BrokerSlot(k)).Some? ==>
      CellOf(TaskAt(tasks, BrokerSlot(k)).value) == BrokerCell(NO_BROKER_STATE, None)
  }

  /**
   The task controller and a writer of the other fields do not disturb each
   other: the status is the same in whatever order their changes are made,
   exactly when no task gives a state to a broker that the other writer creates.
   */
  lemma WritersCommuteExactlyWhen(st: Status, ids: seq<string>, rest: string, tasks: seq<TrackedTask>)
    requires AreTasks(tasks)
    ensures Sync(Generated(st, ids, SetOther(rest)), tasks) == Generated(Sync(st, tasks), ids, SetOther(rest)) <==>
            CreatedStayEmpty(st, ids, tasks)
  {
    hide Sync, Generated, Read, CellOf, TaskAt;
    var a, b := Generated(st, ids, SetOther(rest)), Sync(st, tasks);
    var x, y := Sync(a, tasks), Generated(b, ids, SetOther(rest));
    SyncSpec(a, tasks);
    SyncSpec(st, tasks);
    OtherShape(st, ids, rest);
    OtherShape(b, ids, rest);
    forall s ensures Read(x, s) == Read(y, s) <==> !IsFilled(st, ids, tasks, s) {
      CellsCommute(st, ids, rest, tasks, s);
    }
    if CreatedStayEmpty(st, ids, tasks) {
      SameCells(x, y);
    } else {
      var k :| k in ids && k !in st && TaskAt(tasks, BrokerSlot(k)).Some? &&
               CellOf(TaskAt(tasks, BrokerSlot(k)).value) != BrokerCell(NO_BROKER_STATE, None);
      assert IsFilled(st, ids, tasks, BrokerSlot(k));
      assert Read(x, BrokerSlot(k)) != Read(y, BrokerSlot(k));
    }
  }

  /** The slot belongs to a created broker and a task gives it a state. */
  ghost predicate IsFilled(st: Status, ids: seq<string>, tasks: seq<TrackedTask>, s: Slot) {
    s.BrokerSlot? && s.broker in ids && s.broker !in st && TaskAt(tasks, s).Some? &&
    CellOf(TaskAt(tasks, s).value) != BrokerCell(NO_BROKER_STATE, None)
  }

  lemma CellsCommute(st: Status, ids: seq<string>, rest: string, tasks: seq<TrackedTask>, s: Slot)
    requires AreTasks(tasks)
    ensures
      var x, y := Sync(Generated(st, ids, SetOther(rest)), tasks), Generated(Sync(st, tasks), ids, SetOther(rest));
      Read(x, s) == Read(y, s) <==> !IsFilled(st, ids, tasks, s)
  {
    hide Sync, Generated, Read, CellOf, TaskAt;
    var b := Sync(st, tasks);
    SyncSpec(Generated(st, ids, SetOther(rest)), tasks);
    SyncSpec(st, tasks);
    OtherCells(st, ids, rest, s);
    OtherCells(b, ids, rest, s);
    if s.broker !in st {
      ReadsOfMissing(st, s);
      ReadsOfEmpty(s);
    }
  }

  lemma ReadsOfEmpty(s: Slot)
    ensures Read(map[s.broker := NO_STATUS], s) == if s.BrokerSlot? then Some(BrokerCell(NO_BROKER_STATE, None))
      else None
  {
  }

  lemma ReadsOfMissing(st: Status, s: Slot)
    requires s.broker !in st
    ensures Read(st, s).None?
  {
  }

  /** Setting another field changes no cell of a broker that is there. */
  lemma OtherCells(st: Status, ids: seq<string>, rest: string, s: Slot)
    ensures
      var after := Generated(st, ids, SetOther(rest));
      Read(after, s) ==
      if s.broker in st then Read(st, s)
      else if s.broker in ids then Read(map[s.broker := NO_STATUS], s)
      else None
  {
    GeneratedSpec(st, ids, SetOther(rest));
    hide Generated;
  }

  lemma OtherShape(st: Status, ids: seq<string>, rest: string)
    ensures
      var after := Generated(st, ids, SetOther(rest));
      && (forall k :: k in after <==> k in st || k in ids)
      && (forall k :: k in after ==> after[k].volumes.Keys == StateOf(st, k).volumes.Keys)
      && (forall k :: k in after ==> after[k].rest == if k in ids then rest else st[k].rest)
  {
    GeneratedSpec(st, ids, SetOther(rest));
    hide Generated;
  }
}
