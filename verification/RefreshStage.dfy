/** What polling Cruise Control and writing back does to the stored operations. */
module RefreshStage {
  import opened Wrappers
  import opened OperationTypes
  import opened OperationResult
  import opened ReconcileStep

  ghost predicate DistinctNames(ops: seq<Operation>) {
    forall i, j :: 0 <= i < j < |ops| ==> ops[i].meta.name != ops[j].meta.name
  }

  lemma {:induction false} EligibleDistinct(store: Store, listing: seq<string>, cluster: string)
    requires forall n :: n in listing ==> n in store && store[n].meta.name == n
    requires forall i, j :: 0 <= i < j < |listing| ==> listing[i] != listing[j]
    ensures DistinctNames(Eligible(store, listing, cluster))
    ensures forall x :: x in Eligible(store, listing, cluster) ==> x.meta.name in listing && store[x.meta.name] == x
  {
    if listing != [] {
      var init, last := listing[..|listing| - 1], listing[|listing| - 1];
      assert listing == init + [last];
      EligibleDistinct(store, init, cluster);
      var head := Eligible(store, init, cluster);
      assert last !in init;
      forall i | 0 <= i < |head| ensures head[i].meta.name != last {
        assert head[i] in head;
      }
    }
  }

  ghost predicate CanBeWritten(store: Store, before: seq<Operation>, after: seq<Operation>) {
    && |before| == |after| && DistinctNames(before)
    && forall i :: 0 <= i < |before| ==>
      before[i].meta.name in store && store[before[i].meta.name] == before[i] &&
      after[i] == before[i].(status := after[i].status)
  }

  lemma RestCanBeWritten(store: Store, next: Store, before: seq<Operation>, after: seq<Operation>)
    requires CanBeWritten(store, before, after) && before != []
    requires next.Keys == store.Keys && forall n :: n in store && n != before[0].meta.name ==> next[n] == store[n]
    ensures CanBeWritten(next, before[1..], after[1..])
    ensures forall i :: 0 <= i < |before[1..]| ==> before[1..][i].meta.name != before[0].meta.name
  {
    var b, a := before[1..], after[1..];
    assert forall i :: 0 <= i < |b| ==> b[i] == before[i + 1] && a[i] == after[i + 1];
  }

  ghost predicate IsNamed(before: seq<Operation>, n: string) {
    exists i :: 0 <= i < |before| && before[i].meta.name == n
  }

  /** Each operation is as before or as refreshed, all are refreshed when no write failed, and nothing else changes. */
  ghost predicate IsWritten(store: Store, written: Store, ok: bool, before: seq<Operation>, after: seq<Operation>)
    requires CanBeWritten(store, before, after)
  {
    && written.Keys == store.Keys
    && (forall i :: 0 <= i < |before| ==>
      written[before[i].meta.name] == after[i] || (!ok && written[before[i].meta.name] == before[i]))
    && (forall n :: n in store && !IsNamed(before, n) ==> written[n] == store[n])
  }

  lemma {:induction false} WriteChangedIsWritten(store: Store, before: seq<Operation>, after: seq<Operation>,
                                                 budget: Writes)
    requires |before| == |after| && CanBeWritten(store, before, after)
    ensures
      var (written, ok) := WriteChanged(store, before, after, budget);
      IsWritten(store, written, ok, before, after)
    decreases |before|
  {
    hide CanBeWritten, IsWritten;
    if before == [] {
      assert after == [];
      NothingWritten(store);
    } else {
      var b, a := before[1..], after[1..];
      var same := before[0].status == after[0].status;
      if !same && budget.count == 0 {
        OneWritten(store, before, after, budget.lost);
      } else {
        var next, rest := if same then store else WriteStatus(store, after[0]),
                          if same then budget else budget.(count := budget.count - 1);
        FirstWritten(store, before, after);
        RestCanBeWritten(store, next, before, after);
        WriteChangedIsWritten(next, b, a, rest);
        var (written, ok) := WriteChanged(next, b, a, rest);
        RestWritten(store, next, written, ok, before, after);
      }
    }
  }

  lemma NothingWritten(store: Store)
    requires CanBeWritten(store, [], [])
    ensures IsWritten(store, store, true, [], [])
  {
  }

  lemma OneWritten(store: Store, before: seq<Operation>, after: seq<Operation>, lost: bool)
    requires CanBeWritten(store, before, after) && before != []
    ensures IsWritten(store, if lost then WriteStatus(store, after[0]) else store, false, before, after)
  {
    assert IsNamed(before, before[0].meta.name);
  }

  /** A first operation whose status is the same need not be written. */
  lemma FirstWritten(store: Store, before: seq<Operation>, after: seq<Operation>)
    requires CanBeWritten(store, before, after) && before != []
    ensures before[0].meta.name in store && after[0].meta.name == before[0].meta.name
    ensures WriteStatus(store, after[0]) == store[before[0].meta.name := after[0]]
    ensures before[0].status == after[0].status ==> store[before[0].meta.name] == after[0]
  {
  }

  lemma RestWritten(store: Store, next: Store, written: Store, ok: bool, before: seq<Operation>, after: seq<Operation>)
    requires CanBeWritten(store, before, after) && before != [] && CanBeWritten(next, before[1..], after[1..])
    requires next.Keys == store.Keys && forall n :: n in store && n != before[0].meta.name ==> next[n] == store[n]
    requires next[before[0].meta.name] == after[0] && IsWritten(next, written, ok, before[1..], after[1..])
    ensures IsWritten(store, written, ok, before, after)
  {
    var b, a := before[1..], after[1..];
    assert forall i :: 0 <= i < |b| ==> b[i] == before[i + 1] && a[i] == after[i + 1];
    assert !IsNamed(b, before[0].meta.name);
    forall n | n in store && !IsNamed(before, n) ensures written[n] == store[n] {
      assert before[0].meta.name != n;
      assert !IsNamed(b, n);
    }
  }

  /** How many of the first k operations have a new status to be written. */
  function Changes(before: seq<Operation>, after: seq<Operation>, k: nat): nat
    requires |before| == |after| && k <= |before|
  {
    if k == 0 then 0
    else Changes(before, after, k - 1) + if before[k - 1].status == after[k - 1].status then 0 else 1
  }

  /** The first k operations are written, the k-th one is the write that fails, and the others are as before. */
  ghost predicate StopsAt(store: Store, written: Store, before: seq<Operation>, after: seq<Operation>, budget: Writes,
                          k: nat)
  {
    && |before| == |after| && k < |before| && before[k].status != after[k].status
    && Changes(before, after, k) == budget.count
    && forall i :: 0 <= i < |before| && before[i].meta.name in store && before[i].meta.name in written ==>
      written[before[i].meta.name] ==
      if i < k || (i == k && budget.lost) then after[i] else store[before[i].meta.name]
  }

  lemma {:induction false} ChangesFromNext(before: seq<Operation>, after: seq<Operation>, k: nat)
    requires |before| == |after| && k < |before|
    ensures Changes(before, after, k + 1) ==
      Changes(before[1..], after[1..], k) + if before[0].status == after[0].status then 0 else 1
  {
    if k > 0 {
      ChangesFromNext(before, after, k - 1);
      assert before[1..][k - 1] == before[k] && after[1..][k - 1] == after[k];
    }
  }

  /**
   All writes succeed exactly when there are no more of them than may; otherwise
   writing stops at the first that fails: everything before it is written and
   nothing behind it.
   */
  lemma {:induction false} WritesStopAt(store: Store, before: seq<Operation>, after: seq<Operation>, budget: Writes)
    returns (k: nat)
    requires CanBeWritten(store, before, after)
    ensures
      var (written, ok) := WriteChanged(store, before, after, budget);
      && (ok <==> Changes(before, after, |before|) <= budget.count)
      && (!ok ==> StopsAt(store, written, before, after, budget, k))
    decreases |before|
  {
    hide StopsAt, Changes, DistinctNames;
    k := 0;
    if before == [] {
      NoChanges(before, after);
    } else {
      var b, a := before[1..], after[1..];
      var same := before[0].status == after[0].status;
      ChangesFromNext(before, after, |b|);
      NoChanges(before, after);
      if !same && budget.count == 0 {
        StopsAtFirst(store, before, after, budget);
      } else {
        var next, rest := if same then store else WriteStatus(store, after[0]),
                          if same then budget else budget.(count := budget.count - 1);
        RestCanBeWritten(store, next, before, after);
        k := WritesStopAt(next, b, a, rest);
        var (written, ok) := WriteChanged(next, b, a, rest);
        if !ok {
          FirstStays(next, b, a, rest, before[0].meta.name);
          StopsLater(store, next, written, before, after, budget, rest, k);
        }
        k := k + 1;
      }
    }
  }

  lemma FirstStays(next: Store, b: seq<Operation>, a: seq<Operation>, rest: Writes, name: string)
    requires CanBeWritten(next, b, a) && name in next && forall i :: 0 <= i < |b| ==> b[i].meta.name != name
    ensures
      var written := WriteChanged(next, b, a, rest).0;
      name in written && written[name] == next[name]
  {
    hide WriteChanged;
    WriteChangedIsWritten(next, b, a, rest);
  }

  lemma NoChanges(before: seq<Operation>, after: seq<Operation>)
    requires |before| == |after|
    ensures Changes(before, after, 0) == 0
  {
  }

  lemma StopsAtFirst(store: Store, before: seq<Operation>, after: seq<Operation>, budget: Writes)
    requires |before| == |after| && DistinctNames(before) && before != [] && before[0].status != after[0].status
    requires budget.count == 0
    requires forall i :: 0 <= i < |before| ==> before[i].meta.name in store && store[before[i].meta.name] == before[i]
    requires after[0] == before[0].(status := after[0].status)
    ensures StopsAt(store, if budget.lost then WriteStatus(store, after[0]) else store, before, after, budget, 0)
  {
  }

  lemma StopsLater(store: Store, next: Store, written: Store, before: seq<Operation>, after: seq<Operation>,
                   budget: Writes, rest: Writes, k: nat)
    requires |before| == |after| && before != [] && DistinctNames(before)
    requires StopsAt(next, written, before[1..], after[1..], rest, k)
    requires before[0].meta.name in written ==> written[before[0].meta.name] == after[0]
    requires next.Keys == store.Keys && forall n :: n in store && n != before[0].meta.name ==> next[n] == store[n]
    requires rest.lost == budget.lost
    requires budget.count == rest.count + if before[0].status == after[0].status then 0 else 1
    ensures StopsAt(store, written, before, after, budget, k + 1)
  {
    ChangesFromNext(before, after, k);
    var b, a := before[1..], after[1..];
    forall i | 0 <= i < |before| && before[i].meta.name in store && before[i].meta.name in written
      ensures written[before[i].meta.name] ==
        if i < k + 1 || (i == k + 1 && budget.lost) then after[i] else store[before[i].meta.name]
    {
      if i > 0 {
        assert b[i - 1] == before[i] && a[i - 1] == after[i];
      }
    }
  }

  /** The stored operation an operation may have become once polling is over. */
  function Polled(op: Operation, cluster: string, results: map<string, TaskResult>, now: int): Operation {
    if IsEligible(op, cluster) then Refreshed(op, results, now) else op
  }

  /**
   Polling shows what Cruise Control says about the task of an operation that is
   not done, and an error when it says nothing; the time at which the task was
   first found to have ended is noted.
   */
  lemma PolledTellsState(op: Operation, cluster: string, results: map<string, TaskResult>, now: int)
    ensures
      var p, id := Polled(op, cluster, results, now), op.CurrentTaskID();
      if op.meta.cluster == cluster && op.IsValid() && !op.IsDone() && id != "" then
        && p.CurrentTaskState() == (if id in results then results[id].state else CompletedWithError)
        && p.CurrentTaskFinished() ==
           (if op.CurrentTaskFinished().None? && p.CurrentTaskState() in {Completed, CompletedWithError}
            then Some(WholeSeconds(now)) else op.CurrentTaskFinished())
      else p == op
  {
  }

  lemma RefreshedFrame(op: Operation, results: map<string, TaskResult>, now: int)
    ensures Refreshed(op, results, now) == op.(status := Refreshed(op, results, now).status)
  {
  }

  lemma RefreshStageSpec(store: Store, listing: seq<string>, cluster: string,
                         results: map<string, TaskResult>, now: int, budget: Writes)
    requires IsListing(listing, store)
    ensures
      var before := Eligible(store, listing, cluster);
      var after := RefreshAll(before, results, now);
      var (written, ok) := WriteChanged(store, before, after, budget);
      && written.Keys == store.Keys
      && (forall n :: n in store ==> written[n] == store[n] || written[n] == Polled(store[n], cluster, results, now))
      && (ok ==> forall n :: n in store ==> written[n] == Polled(store[n], cluster, results, now))
      && (ok ==> forall x :: x in after ==>
        x.meta.name in store && written[x.meta.name] == x && IsEligible(store[x.meta.name], cluster))
      && (ok ==> forall n :: n in store && IsEligible(store[n], cluster) ==> written[n] in after)
  {
    hide Eligible, IsEligible, Refreshed, RefreshAll, WriteChanged, CanBeWritten;
    var before := Eligible(store, listing, cluster);
    var after := RefreshAll(before, results, now);
    PolledCanBeWritten(store, listing, cluster, results, now);
    WriteChangedIsWritten(store, before, after, budget);
    var (written, ok) := WriteChanged(store, before, after, budget);
    assert forall n :: n in store && !IsEligible(store[n], cluster) ==> !IsNamed(before, n);
    forall x | ok && x in after
      ensures x.meta.name in store && written[x.meta.name] == x && IsEligible(store[x.meta.name], cluster)
    {
      var i :| 0 <= i < |after| && after[i] == x;
      assert written[before[i].meta.name] == after[i];
    }
  }

  /** The eligible operations and what polling makes of them, one by one. */
  lemma PolledCanBeWritten(store: Store, listing: seq<string>, cluster: string, results: map<string, TaskResult>,
                           now: int)
    requires IsListing(listing, store)
    ensures
      var before := Eligible(store, listing, cluster);
      var after := RefreshAll(before, results, now);
      && CanBeWritten(store, before, after) && |before| == |after|
      && (forall i :: 0 <= i < |before| ==>
            var n := before[i].meta.name;
            && n in store && IsEligible(store[n], cluster) && after[i].meta.name == n && before[i] == store[n]
            && after[i] == Polled(store[n], cluster, results, now))
      && (forall n :: n in store && IsEligible(store[n], cluster) ==> IsNamed(before, n))
  {
    hide Eligible, IsEligible, Refreshed;
    var before := Eligible(store, listing, cluster);
    var after := RefreshAll(before, results, now);
    EligibleDistinct(store, listing, cluster);
    EligibleSpec(store, listing, cluster);
    forall i | 0 <= i < |before|
      ensures before[i].meta.name in store && store[before[i].meta.name] == before[i]
      ensures after[i] == before[i].(status := after[i].status) && IsEligible(before[i], cluster)
    {
      assert before[i] in before;
      RefreshedFrame(before[i], results, now);
    }
    forall n | n in store && IsEligible(store[n], cluster) ensures IsNamed(before, n) {
      assert n in listing;
      assert store[n] in before;
      var i :| 0 <= i < |before| && before[i] == store[n];
      assert before[i].meta.name == n;
    }
  }
}
