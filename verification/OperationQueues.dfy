/**
 The four execution queues and the choice of the next operation
 (sortOperations, selectOperationForExecution), on values.
 */
module OperationQueues {
  import opened Wrappers
  import opened OperationTypes
  import opened Selections

  datatype Queue = ForStop | First | ForRetry | InProgress

  function Classify(op: Operation): Option<Queue> {
    if op.IsWaitingForFinalization() then Some(ForStop)
    else if op.IsWaitingForFirstExecution() then Some(First)
    else if op.IsWaitingForRetryExecution() then Some(ForRetry)
    else if op.IsInProgress() then Some(InProgress)
    else None
  }

  function Select(ops: seq<Operation>, q: Queue): seq<Operation> {
    if ops == [] then []
    else
      var last := ops[|ops| - 1];
      Select(ops[..|ops| - 1], q) + if Classify(last) == Some(q) then [last] else []
  }

  /** executionPriorityMap; a kind without an entry has priority 0. */
  function Priority(k: Kind): int {
    match k
    case AddBroker => 3
    case RemoveBroker => 2
    case RemoveDisks => 1
    case _ => 0
  }

  /** The sort key: higher priority first, then older first. */
  datatype Rank = Rank(priority: int, created: int) {
    predicate Precedes(other: Rank) {
      priority > other.priority || (priority == other.priority && created < other.created)
    }
  }

  function RankOf(op: Operation): Rank {
    Rank(Priority(op.CurrentTaskKind()), op.meta.created)
  }

  predicate Before(a: Operation, b: Operation) {
    RankOf(a).Precedes(RankOf(b))
  }

  function Insert(s: seq<Operation>, x: Operation): seq<Operation> {
    if s == [] || !Before(x, s[|s| - 1]) then s + [x]
    else Insert(s[..|s| - 1], x) + [s[|s| - 1]]
  }

  function StableSort(s: seq<Operation>): seq<Operation> {
    if s == [] then [] else Insert(StableSort(s[..|s| - 1]), s[|s| - 1])
  }

  function QueueOf(ops: seq<Operation>, q: Queue): seq<Operation> {
    StableSort(Select(ops, q))
  }

  // ---------------------------------------------------------------------------
  // The order of a queue, written out

  /** add_broker goes before remove_broker, that before remove_disks, and these before rebalance and stop. */
  predicate GoesFirst(a: Kind, b: Kind) {
    || (a == AddBroker && b != AddBroker)
    || (a == RemoveBroker && b !in {AddBroker, RemoveBroker})
    || (a == RemoveDisks && b !in {AddBroker, RemoveBroker, RemoveDisks})
  }

  predicate OnOneLevel(a: Operation, b: Operation) {
    !GoesFirst(a.CurrentTaskKind(), b.CurrentTaskKind()) && !GoesFirst(b.CurrentTaskKind(), a.CurrentTaskKind())
  }

  /** a may stand before b: no kind goes first that stands behind, and on one level the older does. */
  predicate InOrder(a: Operation, b: Operation) {
    && !GoesFirst(b.CurrentTaskKind(), a.CurrentTaskKind())
    && (OnOneLevel(a, b) ==> a.meta.created <= b.meta.created)
  }

  ghost predicate Sorted(s: seq<Operation>) {
    forall i, j :: 0 <= i < j < |s| ==> InOrder(s[i], s[j])
  }

  /** Neither has to stand before the other. */
  predicate ArePeers(a: Operation, b: Operation) {
    OnOneLevel(a, b) && a.meta.created == b.meta.created
  }

  /** The peers of x in s, in order. */
  function Peers(s: seq<Operation>, x: Operation): seq<Operation> {
    if s == [] then []
    else Peers(s[..|s| - 1], x) + if ArePeers(s[|s| - 1], x) then [s[|s| - 1]] else []
  }

  /** Comparing numbers is that order. */
  lemma RankIsOrder(a: Operation, b: Operation)
    ensures Before(a, b) <==> !InOrder(b, a)
    ensures ArePeers(a, b) <==> InOrder(a, b) && InOrder(b, a)
  {
  }

  lemma OrderLaws(a: Operation, b: Operation, c: Operation)
    ensures InOrder(a, b) || InOrder(b, a)
    ensures InOrder(a, b) && InOrder(b, c) ==> InOrder(a, c)
    ensures ArePeers(a, b) ==> (ArePeers(a, c) <==> ArePeers(b, c))
  {
  }

  lemma {:induction false} InsertMultiset(s: seq<Operation>, x: Operation)
    ensures multiset(Insert(s, x)) == multiset(s) + multiset{x}
  {
    hide Before;
    if s != [] && Before(x, s[|s| - 1]) {
      assert s == s[..|s| - 1] + [s[|s| - 1]];
      InsertMultiset(s[..|s| - 1], x);
    }
  }

  lemma InsertMembers(s: seq<Operation>, x: Operation, y: Operation)
    requires y in Insert(s, x)
    ensures y == x || y in s
  {
    InsertMultiset(s, x);
    assert y in multiset(Insert(s, x));
  }

  lemma {:induction false} InsertKeeps(s: seq<Operation>, x: Operation)
    requires Sorted(s)
    ensures multiset(Insert(s, x)) == multiset(s) + multiset{x}
    ensures Sorted(Insert(s, x))
  {
    hide Before, InOrder;
    InsertMultiset(s, x);
    if s != [] {
      var init, last := s[..|s| - 1], s[|s| - 1];
      RankIsOrder(x, last);
      if !Before(x, last) {
        forall i | 0 <= i < |s| ensures InOrder(s[i], x) {
          OrderLaws(s[i], last, x);
          OrderLaws(last, last, last);
        }
      } else {
        InsertKeeps(init, x);
        var t := Insert(init, x);
        OrderLaws(x, last, x);
        forall i | 0 <= i < |t| ensures InOrder(t[i], last) {
          InsertMembers(init, x, t[i]);
        }
      }
    }
  }

  lemma {:induction false} PeersAppend(s: seq<Operation>, t: seq<Operation>, x: Operation)
    ensures Peers(s + t, x) == Peers(s, x) + Peers(t, x)
  {
    if t == [] {
      assert s + t == s;
    } else {
      assert (s + t)[..|s + t| - 1] == s + t[..|t| - 1];
      PeersAppend(s, t[..|t| - 1], x);
    }
  }

  lemma {:induction false} InsertIsStable(s: seq<Operation>, x: Operation, y: Operation)
    ensures Peers(Insert(s, x), y) == Peers(s + [x], y)
  {
    hide ArePeers, Before, Peers;
    if s != [] && Before(x, s[|s| - 1]) {
      var init, last := s[..|s| - 1], s[|s| - 1];
      InsertIsStable(init, x, y);
      PeersAppend(Insert(init, x), [last], y);
      PeersAppend(init, [x], y);
      assert s == init + [last];
      PeersAppend(s, [x], y);
      PeersAppend(init, [last], y);
      PeersOfOne(x, y);
      PeersOfOne(last, y);
      RankIsOrder(x, last);
      OrderLaws(x, y, last);
      PeersAreMutual(x, y);
      PeersAreMutual(last, y);
    }
  }

  lemma PeersOfOne(x: Operation, y: Operation)
    ensures Peers([x], y) == if ArePeers(x, y) then [x] else []
  {
  }

  lemma PeersAreMutual(a: Operation, b: Operation)
    ensures ArePeers(a, b) == ArePeers(b, a)
  {
  }

  lemma {:induction false} PeersOfPeers(s: seq<Operation>, x: Operation, y: Operation)
    requires ArePeers(x, y)
    ensures Peers(s, x) == Peers(s, y)
  {
    hide ArePeers;
    if s != [] {
      PeersOfPeers(s[..|s| - 1], x, y);
      OrderLaws(x, y, s[|s| - 1]);
      PeersAreMutual(x, s[|s| - 1]);
      PeersAreMutual(y, s[|s| - 1]);
    }
  }

  /** The sort is a permutation, ordered by kind then age, and stable. */
  lemma {:induction false} StableSortSpec(s: seq<Operation>)
    ensures multiset(StableSort(s)) == multiset(s)
    ensures Sorted(StableSort(s))
    ensures forall x :: Peers(StableSort(s), x) == Peers(s, x)
  {
    hide ArePeers, InOrder;
    if s != [] {
      var init, last := s[..|s| - 1], s[|s| - 1];
      assert s == init + [last];
      StableSortSpec(init);
      InsertKeeps(StableSort(init), last);
      forall x ensures Peers(StableSort(s), x) == Peers(s, x) {
        InsertIsStable(StableSort(init), last, x);
        PeersAppend(StableSort(init), [last], x);
        PeersAppend(init, [last], x);
      }
    }
  }

  lemma {:induction false} SelectSpec(ops: seq<Operation>, q: Queue)
    ensures forall x :: x in Select(ops, q) <==> x in ops && Classify(x) == Some(q)
  {
    if ops != [] {
      assert ops == ops[..|ops| - 1] + [ops[|ops| - 1]];
      SelectSpec(ops[..|ops| - 1], q);
    }
  }

  /** The operations of a class, in the order in which they were listed. */
  lemma {:induction false} SelectIsFilter(ops: seq<Operation>, q: Queue, keep: Operation -> bool)
    requires forall x :: keep(x) <==> Classify(x) == Some(q)
    ensures Select(ops, q) == Filter(ops, keep)
  {
    hide Classify;
    if ops != [] {
      SelectIsFilter(ops[..|ops| - 1], q, keep);
    }
  }

  /** Membership and order of a queue, free of how it is computed. */
  lemma QueueSpec(ops: seq<Operation>, q: Queue)
    ensures forall x :: x in QueueOf(ops, q) <==> x in ops && Classify(x) == Some(q)
    ensures Sorted(QueueOf(ops, q))
    ensures multiset(QueueOf(ops, q)) == multiset(Select(ops, q))
    ensures forall x :: Peers(QueueOf(ops, q), x) == Peers(Select(ops, q), x)
  {
    SelectSpec(ops, q);
    StableSortSpec(Select(ops, q));
    var s, t := QueueOf(ops, q), Select(ops, q);
    forall x ensures x in s <==> x in t {
      assert x in s <==> x in multiset(s);
      assert x in t <==> x in multiset(t);
    }
  }

  lemma QueueMembers(ops: seq<Operation>, q: Queue)
    ensures forall x :: x in QueueOf(ops, q) ==> x in ops && Classify(x) == Some(q)
  {
    QueueSpec(ops, q);
  }

  // ---------------------------------------------------------------------------
  // Selection

  datatype Choice =
    | Nothing
    | Run(op: Operation)
    | PauseThenRun(paused: Operation, op: Operation)

  function AsStop(op: Operation): (r: Operation)
    requires op.status.currentTask.Some?
    ensures r.CurrentTaskKind() == StopExecution && r.meta == op.meta && r.spec == op.spec
    ensures r.CurrentTaskID() == op.CurrentTaskID() && r.CurrentTaskState() == op.CurrentTaskState()
  {
    op.(status := op.status.(currentTask := Some(op.status.currentTask.value.(kind := StopExecution))))
  }

  function FirstRebalance(s: seq<Operation>): (r: Option<Operation>)
    ensures r.Some? ==> r.value in s && r.value.CurrentTaskKind() == Rebalance
    ensures r.None? ==> forall x :: x in s ==> x.CurrentTaskKind() != Rebalance
  {
    if s == [] then None
    else if s[0].CurrentTaskKind() == Rebalance then Some(s[0])
    else FirstRebalance(s[1..])
  }

  function ChooseRetryOrFirst(first: seq<Operation>, retry: seq<Operation>, now: int): Choice {
    if retry != [] && retry[0].CurrentTaskKind() == RemoveDisks && FirstRebalance(first).Some? then
      PauseThenRun(retry[0], FirstRebalance(first).value)
    else if retry != [] && retry[0].IsReadyForRetryExecution(now) then Run(retry[0])
    else if first != [] then Run(first[0])
    else Nothing
  }

  function ChooseUnlessStop(first: seq<Operation>, retry: seq<Operation>, now: int): Choice {
    if first != [] && first[0].CurrentTaskKind() == AddBroker then Run(first[0])
    else ChooseRetryOrFirst(first, retry, now)
  }

  function Choose(ops: seq<Operation>, now: int): Choice
    requires forall x :: x in ops ==> x.status.currentTask.Some?
  {
    QueueMembers(ops, ForStop);
    var stop, first, retry := QueueOf(ops, ForStop), QueueOf(ops, First), QueueOf(ops, ForRetry);
    if stop != [] then Run(AsStop(stop[0])) else ChooseUnlessStop(first, retry, now)
  }

  /**
   x heads queue q of ops: it may stand before everything in the queue, and of
   its peers it comes first in ops.
   */
  ghost predicate IsHead(ops: seq<Operation>, q: Queue, x: Operation) {
    x in ops && Classify(x) == Some(q) &&
    (forall y :: y in ops && Classify(y) == Some(q) ==> InOrder(x, y)) &&
    var peers := Peers(Select(ops, q), x);
    peers != [] && peers[0] == x
  }

  ghost predicate Has(ops: seq<Operation>, q: Queue, k: Kind) {
    exists x :: x in ops && Classify(x) == Some(q) && x.CurrentTaskKind() == k
  }

  ghost predicate IsEmpty(ops: seq<Operation>, q: Queue) {
    forall x :: x in ops ==> Classify(x) != Some(q)
  }

  lemma HeadSpec(ops: seq<Operation>, q: Queue)
    ensures QueueOf(ops, q) == [] <==> IsEmpty(ops, q)
    ensures QueueOf(ops, q) != [] ==> IsHead(ops, q, QueueOf(ops, q)[0])
    ensures forall x :: IsHead(ops, q, x) ==> QueueOf(ops, q) != [] && x == QueueOf(ops, q)[0]
  {
    hide QueueOf, Classify, InOrder, ArePeers, Select;
    QueueSpec(ops, q);
    var s := QueueOf(ops, q);
    if s != [] {
      assert s[0] in s;
      OrderLaws(s[0], s[0], s[0]);
      RankIsOrder(s[0], s[0]);
      assert s == [s[0]] + s[1..];
      PeersAppend([s[0]], s[1..], s[0]);
      PeersOfOne(s[0], s[0]);
      assert Peers(s, s[0])[0] == s[0];
      forall y | y in ops && Classify(y) == Some(q) ensures InOrder(s[0], y) {
        assert y in s;
      }
      forall x | IsHead(ops, q, x) ensures x == s[0] {
        assert x in s && InOrder(s[0], x) && InOrder(x, s[0]);
        RankIsOrder(x, s[0]);
        PeersOfPeers(s, x, s[0]);
      }
    }
  }

  /** add_broker has the highest priority, so a fresh one leads its queue. */
  lemma AddBrokerLeads(ops: seq<Operation>)
    ensures Has(ops, First, AddBroker) <==>
            QueueOf(ops, First) != [] && QueueOf(ops, First)[0].CurrentTaskKind() == AddBroker
  {
    hide QueueOf, Classify, Peers, Select;
    QueueSpec(ops, First);
    var first := QueueOf(ops, First);
    if Has(ops, First, AddBroker) {
      var x :| x in ops && Classify(x) == Some(First) && x.CurrentTaskKind() == AddBroker;
      var i :| 0 <= i < |first| && first[i] == x;
      assert i == 0 || InOrder(first[0], first[i]);
    } else if first != [] {
      assert first[0] in first;
    }
  }

  lemma RebalanceWaits(ops: seq<Operation>)
    ensures FirstRebalance(QueueOf(ops, First)).Some? <==> Has(ops, First, Rebalance)
    ensures FirstRebalance(QueueOf(ops, First)).Some? ==>
            FirstRebalance(QueueOf(ops, First)).value in ops &&
            Classify(FirstRebalance(QueueOf(ops, First)).value) == Some(First)
  {
    QueueSpec(ops, First);
  }

  /** First precedence: a finalizing operation, which is then run as a stop. */
  lemma FinalizingFirst(ops: seq<Operation>, now: int)
    requires forall x :: x in ops ==> x.status.currentTask.Some?
    requires !IsEmpty(ops, ForStop)
    ensures exists x :: IsHead(ops, ForStop, x) && Choose(ops, now) == Run(AsStop(x))
  {
    HeadSpec(ops, ForStop);
    assert IsHead(ops, ForStop, QueueOf(ops, ForStop)[0]);
  }

  /** Second: the oldest fresh add_broker. */
  lemma AddBrokerSecond(ops: seq<Operation>, now: int)
    requires forall x :: x in ops ==> x.status.currentTask.Some?
    requires IsEmpty(ops, ForStop) && Has(ops, First, AddBroker)
    ensures Choose(ops, now).Run? && IsHead(ops, First, Choose(ops, now).op)
    ensures Choose(ops, now).op.CurrentTaskKind() == AddBroker
    ensures forall x :: x in ops && Classify(x) == Some(First) && x.CurrentTaskKind() == AddBroker ==>
      Choose(ops, now).op.meta.created <= x.meta.created
  {
    HeadSpec(ops, ForStop);
    HeadSpec(ops, First);
    AddBrokerLeads(ops);
  }

  /** The failed operation that leads its queue is a remove_disks, and a fresh rebalance waits. */
  ghost predicate GivesWay(ops: seq<Operation>) {
    (exists r :: IsHead(ops, ForRetry, r) && r.CurrentTaskKind() == RemoveDisks) && Has(ops, First, Rebalance)
  }

  ghost predicate RetryIsReady(ops: seq<Operation>, now: int) {
    exists r :: IsHead(ops, ForRetry, r) && r.IsReadyForRetryExecution(now)
  }

  /** x leads the fresh rebalances: none is older, and of those of its age it comes first in ops. */
  ghost predicate LeadsRebalances(ops: seq<Operation>, x: Operation) {
    && x in ops && Classify(x) == Some(First) && x.CurrentTaskKind() == Rebalance
    && (forall y :: y in ops && Classify(y) == Some(First) && y.CurrentTaskKind() == Rebalance ==>
          x.meta.created <= y.meta.created)
    && FirstRebalance(Peers(Select(ops, First), x)) == Some(x)
  }

  lemma {:induction false} FirstRebalanceLeads(s: seq<Operation>)
    requires Sorted(s) && FirstRebalance(s).Some?
    ensures
      var x := FirstRebalance(s).value;
      && (forall y :: y in s && y.CurrentTaskKind() == Rebalance ==> x.meta.created <= y.meta.created)
      && FirstRebalance(Peers(s, x)) == Some(x)
  {
    var x, rest := FirstRebalance(s).value, s[1..];
    assert s == [s[0]] + rest;
    PeersAppend([s[0]], rest, x);
    PeersOfOne(s[0], x);
    hide Peers;
    if s[0].CurrentTaskKind() != Rebalance {
      FirstRebalanceLeads(rest);
      var peers := Peers(rest, x);
      assert ([s[0]] + peers)[1..] == peers && [] + peers == peers;
    }
  }

  /**
   Third: the rebalance for which a failed remove_disks is paused, or the leading
   failed operation once its back-off has elapsed.  Fourth: the leading fresh
   one.  Nothing only when none of these exists.
   */
  lemma RetryThenFresh(ops: seq<Operation>, now: int)
    requires forall x :: x in ops ==> x.status.currentTask.Some?
    requires IsEmpty(ops, ForStop) && !Has(ops, First, AddBroker)
    ensures Choose(ops, now).PauseThenRun? <==> GivesWay(ops)
    ensures Choose(ops, now).Nothing? <==> !GivesWay(ops) && !RetryIsReady(ops, now) && IsEmpty(ops, First)
    ensures match Choose(ops, now)
      case PauseThenRun(p, x) =>
        IsHead(ops, ForRetry, p) && p.CurrentTaskKind() == RemoveDisks && LeadsRebalances(ops, x)
      case Run(x) =>
        if RetryIsReady(ops, now) then IsHead(ops, ForRetry, x) && x.IsReadyForRetryExecution(now)
        else IsHead(ops, First, x)
      case Nothing => true
  {
    HeadSpec(ops, ForStop);
    HeadSpec(ops, First);
    HeadSpec(ops, ForRetry);
    AddBrokerLeads(ops);
    RebalanceWaits(ops);
    var first, retry := QueueOf(ops, First), QueueOf(ops, ForRetry);
    assert Choose(ops, now) == ChooseRetryOrFirst(first, retry, now);
    hide QueueOf, Classify, Peers, IsHead, InOrder;
    if FirstRebalance(first).Some? {
      LeadingRebalance(ops);
    }
  }

  lemma LeadingRebalance(ops: seq<Operation>)
    requires FirstRebalance(QueueOf(ops, First)).Some?
    ensures LeadsRebalances(ops, FirstRebalance(QueueOf(ops, First)).value)
  {
    hide QueueOf, Classify, Peers, InOrder;
    QueueSpec(ops, First);
    FirstRebalanceLeads(QueueOf(ops, First));
  }

  /** Where a choice comes from, whatever the precedence that led to it. */
  ghost predicate IsSound(ops: seq<Operation>, now: int, choice: Choice) {
    match choice
    case Nothing => true
    case Run(x) =>
      || (exists y :: y in ops && Classify(y) == Some(ForStop) && y.status.currentTask.Some? && x == AsStop(y))
      || (IsEmpty(ops, ForStop) && x in ops &&
          (Classify(x) == Some(First) || (Classify(x) == Some(ForRetry) && x.IsReadyForRetryExecution(now))))
    case PauseThenRun(p, x) =>
      IsEmpty(ops, ForStop) && p in ops && Classify(p) == Some(ForRetry) &&
      x in ops && Classify(x) == Some(First)
  }

  lemma ChoiceIsSound(ops: seq<Operation>, now: int)
    requires forall x :: x in ops ==> x.status.currentTask.Some?
    ensures IsSound(ops, now, Choose(ops, now))
  {
    if !IsEmpty(ops, ForStop) {
      FinalizingFirst(ops, now);
    } else if Has(ops, First, AddBroker) {
      AddBrokerSecond(ops, now);
    } else {
      RetryThenFresh(ops, now);
    }
  }
}
