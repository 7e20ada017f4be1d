/** The in-memory operations a reconcile mutates, and the methods that mutate them. */
module OperationObjects {
  import opened Wrappers
  import opened OperationTypes
  import opened OperationQueues
  import Spec = OperationResult

  class OperationRef {
    var meta: ObjectMeta
    var spec: OperationSpec
    var status: OperationStatus

    constructor (op: Operation)
      ensures View() == op
    {
      meta, spec, status := op.meta, op.spec, op.status;
    }

    function View(): Operation
      reads this
    {
      Operation(meta, spec, status)
    }

    /** Clears everything the last execution left in the current task. */
    method SetDefaults()
      requires status.currentTask.Some?
      modifies this
      ensures
        var task := old(status.currentTask.value).Defaulted();
        View() == old(View()).(status := old(status).(currentTask := Some(task)))
    {
      var task := status.currentTask.value;
      task := task.(finished := None);
      task := task.(state := NoState);
      task := task.(started := None);
      task := task.(errorMessage := "");
      task := task.(httpRequest := "");
      task := task.(httpResponseCode := None);
      task := task.(id := "");
      task := task.(summary := None);
      status := status.(currentTask := Some(task));
    }

    /** Records an answer of Cruise Control; false when its start time does not parse. */
    method UpdateResult(answer: Option<TaskResult>, afterExecution: bool, now: int) returns (ok: bool)
      requires status.currentTask.Some?
      modifies this
      ensures (View(), ok) == Spec.UpdateResult(old(View()), answer, afterExecution, now)
    {
      var res := Spec.ResultOrMissing(View(), answer);
      status := status.(errorPolicy := spec.errorPolicy);
      var task := status.currentTask.value;
      if IsTerminalState(res.state) && task.finished.None? {
        task := task.(finished := Some(WholeSeconds(now)));
        status := status.(currentTask := Some(task));
      }
      if afterExecution && task.finished.Some? && task.state == CompletedWithError {
        if |status.failedTasks| >= FAILED_TASKS_MAX {
          status := status.(failedTasks := status.failedTasks[1..]);
        }
        status := status.(failedTasks := status.failedTasks + [task]);
        status := status.(retryCount := status.retryCount + 1);
        SetDefaults();
        task := status.currentTask.value;
      }
      if afterExecution {
        if task.started.None? {
          if res.startedAt.None? {
            return false;
          }
          task := task.(started := res.startedAt);
        }
        task := task.(id := res.taskId, summary := res.summary);
        if res.error.Some? {
          task := task.(errorMessage := res.error.value);
        }
        task := task.(httpRequest := res.requestURL, httpResponseCode := Some(res.responseStatusCode));
      }
      task := task.(state := res.state);
      status := status.(currentTask := Some(task));
      return true;
    }

    /** Turns the current task into a stop request. */
    method BecomeStop()
      requires status.currentTask.Some?
      modifies this
      ensures View() == AsStop(old(View()))
    {
      status := status.(currentTask := Some(status.currentTask.value.(kind := StopExecution)));
    }
  }

  /** The values of a list of operations. */
  function Views(s: seq<OperationRef>): (r: seq<Operation>)
    reads s
    ensures |r| == |s|
  {
    if s == [] then [] else Views(s[..|s| - 1]) + [s[|s| - 1].View()]
  }

  lemma {:induction false} ViewsSpec(s: seq<OperationRef>)
    ensures forall i :: 0 <= i < |s| ==> Views(s)[i] == s[i].View()
  {
    if s != [] {
      ViewsSpec(s[..|s| - 1]);
    }
  }

  lemma ViewsAppend(s: seq<OperationRef>, x: OperationRef)
    ensures Views(s + [x]) == Views(s) + [x.View()]
  {
  }

  lemma {:induction false} InsertPosition(vs: seq<Operation>, v: Operation, i: nat)
    requires i <= |vs|
    requires forall k :: i <= k < |vs| ==> Before(v, vs[k])
    requires i > 0 ==> !Before(v, vs[i - 1])
    ensures Insert(vs, v) == vs[..i] + [v] + vs[i..]
    decreases |vs|
  {
    if i == |vs| {
      assert vs[..i] == vs && vs[i..] == [];
    } else {
      var init, last := vs[..|vs| - 1], vs[|vs| - 1];
      InsertPosition(init, v, i);
      assert vs[i..] == init[i..] + [last];
      assert vs[..i] == init[..i];
    }
  }

  /** Insertion step of the sort: x goes behind everything that does not rank after it. */
  method InsertByRank(queue: seq<OperationRef>, x: OperationRef) returns (r: seq<OperationRef>)
    ensures Views(r) == Insert(Views(queue), x.View())
    ensures multiset(r) == multiset(queue) + multiset{x}
  {
    hide Views, Insert, Before, OperationRef.View;
    ViewsSpec(queue);
    var i := |queue|;
    while i > 0 && Before(x.View(), queue[i - 1].View())
      invariant 0 <= i <= |queue|
      invariant forall k :: i <= k < |queue| ==> Before(x.View(), queue[k].View())
    {
      i := i - 1;
    }
    r := queue[..i] + [x] + queue[i..];
    InsertPosition(Views(queue), x.View(), i);
    InsertedViews(queue, x, i);
  }

  lemma ViewsConcat(a: seq<OperationRef>, b: seq<OperationRef>)
    ensures Views(a + b) == Views(a) + Views(b) && |Views(a)| == |a|
  {
    hide Views, OperationRef.View;
    ViewsSpec(a);
    ViewsSpec(b);
    ViewsSpec(a + b);
  }

  lemma InsertedViews(queue: seq<OperationRef>, x: OperationRef, i: nat)
    requires i <= |queue|
    ensures |Views(queue)| == |queue|
    ensures Views(queue[..i] + [x] + queue[i..]) == Views(queue)[..i] + [x.View()] + Views(queue)[i..]
    ensures multiset(queue[..i] + [x] + queue[i..]) == multiset(queue) + multiset{x}
  {
    ViewsAppend(queue[..i], x);
    hide Views, OperationRef.View;
    var front, back := queue[..i], queue[i..];
    assert queue == front + back;
    ViewsConcat(front, back);
    ViewsConcat(front + [x], back);
    ViewsConcat(queue, []);
  }

  lemma StableSortStep(vs: seq<Operation>, i: nat)
    requires i < |vs|
    ensures StableSort(vs[..i + 1]) == Insert(StableSort(vs[..i]), vs[i])
  {
    assert vs[..i + 1][..i] == vs[..i];
  }

  /** The stable sort of one queue. */
  method SortByRank(queue: seq<OperationRef>) returns (r: seq<OperationRef>)
    ensures Views(r) == StableSort(Views(queue))
    ensures forall ops :: Within(queue, ops) ==> Within(r, ops)
  {
    hide StableSort, Insert, Views, Within;
    ghost var vs := Views(queue);
    ViewsSpec(queue);
    r := [];
    SortNothing(vs);
    for i := 0 to |queue|
      invariant Views(r) == StableSort(vs[..i])
      invariant multiset(r) == multiset(queue[..i])
    {
      StableSortStep(vs, i);
      assert queue[..i + 1] == queue[..i] + [queue[i]];
      r := InsertByRank(r, queue[i]);
    }
    assert vs[..|queue|] == vs;
    assert queue[..|queue|] == queue;
    forall ops | Within(queue, ops) ensures Within(r, ops) {
      PermutedWithin(queue, r, ops);
    }
  }

  lemma SortNothing(vs: seq<Operation>)
    ensures Views([]) == StableSort(vs[..0])
  {
  }

  lemma PermutedWithin(queue: seq<OperationRef>, r: seq<OperationRef>, ops: seq<OperationRef>)
    requires Within(queue, ops) && multiset(r) == multiset(queue)
    ensures Within(r, ops)
  {
    forall x | x in r ensures x in queue {
      assert x in multiset(r);
    }
  }

  /** The queue map: one list for each of its four constant keys. */
  datatype QueueMap = QueueMap(
    stop: seq<OperationRef>,
    first: seq<OperationRef>,
    retry: seq<OperationRef>,
    inProgress: seq<OperationRef>)

  /** All listed operations are among ops. */
  ghost predicate Within(s: seq<OperationRef>, ops: seq<OperationRef>) {
    forall x :: x in s ==> x in ops
  }

  ghost predicate AllWithin(queues: QueueMap, ops: seq<OperationRef>) {
    Within(queues.stop, ops) && Within(queues.first, ops) && Within(queues.retry, ops) && Within(queues.inProgress, ops)
  }

  /** The queues hold the classes of vs, in order. */
  ghost predicate Classified(queues: QueueMap, vs: seq<Operation>)
    reads queues.stop, queues.first, queues.retry, queues.inProgress
  {
    && Views(queues.stop) == Select(vs, ForStop)
    && Views(queues.first) == Select(vs, First)
    && Views(queues.retry) == Select(vs, ForRetry)
    && Views(queues.inProgress) == Select(vs, InProgress)
  }

  /** The queues are those of vs, sorted. */
  ghost predicate AreQueuesOf(queues: QueueMap, vs: seq<Operation>)
    reads queues.stop, queues.first, queues.retry, queues.inProgress
  {
    && Views(queues.stop) == QueueOf(vs, ForStop)
    && Views(queues.first) == QueueOf(vs, First)
    && Views(queues.retry) == QueueOf(vs, ForRetry)
    && Views(queues.inProgress) == QueueOf(vs, InProgress)
  }

  /** One pass of the classification: x goes to the queue of its class, if it has one. */
  method Enqueue(queues: QueueMap, x: OperationRef, ghost vs: seq<Operation>) returns (r: QueueMap)
    requires Classified(queues, vs)
    ensures Classified(r, vs + [x.View()])
    ensures forall ops :: AllWithin(queues, ops) && x in ops ==> AllWithin(r, ops)
  {
    ViewsAppend(queues.stop, x);
    ViewsAppend(queues.first, x);
    ViewsAppend(queues.retry, x);
    ViewsAppend(queues.inProgress, x);
    assert (vs + [x.View()])[..|vs|] == vs;
    var op := x.View();
    r := queues;
    if op.IsWaitingForFinalization() {
      r := r.(stop := r.stop + [x]);
    } else if op.IsWaitingForFirstExecution() {
      r := r.(first := r.first + [x]);
    } else if op.IsWaitingForRetryExecution() {
      r := r.(retry := r.retry + [x]);
    } else if op.IsInProgress() {
      r := r.(inProgress := r.inProgress + [x]);
    }
  }

  lemma NothingClassified(ops: seq<OperationRef>)
    ensures Classified(QueueMap([], [], [], []), []) && AllWithin(QueueMap([], [], [], []), ops)
  {
  }

  method ClassifyAll(ops: seq<OperationRef>) returns (queues: QueueMap)
    ensures Classified(queues, Views(ops))
    ensures AllWithin(queues, ops)
  {
    hide Classified, Views, AllWithin;
    queues := QueueMap([], [], [], []);
    ghost var vs := Views(ops);
    ViewsSpec(ops);
    assert vs[..0] == [];
    NothingClassified(ops);
    for i := 0 to |ops|
      invariant Classified(queues, vs[..i])
      invariant AllWithin(queues, ops)
    {
      assert vs[..i + 1] == vs[..i] + [ops[i].View()];
      queues := Enqueue(queues, ops[i], vs[..i]);
    }
    assert vs[..|ops|] == vs;
  }

  /** The operations by queue, each queue sorted by priority and then by age. */
  method SortOperations(ops: seq<OperationRef>) returns (queues: QueueMap)
    ensures AreQueuesOf(queues, Views(ops))
    ensures AllWithin(queues, ops)
  {
    hide Views, Select, StableSort;
    var classes := ClassifyAll(ops);
    var stop := SortByRank(classes.stop);
    var first := SortByRank(classes.first);
    var retry := SortByRank(classes.retry);
    var inProgress := SortByRank(classes.inProgress);
    queues := QueueMap(stop, first, retry, inProgress);
  }
}
