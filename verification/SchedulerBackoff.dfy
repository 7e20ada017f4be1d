/**
 When the 30 s between an execution and its retry are kept.  The readiness test
 counts from the end of the execution as noted in whole seconds, so they are
 kept exactly when the noted end is not before the recording.
 */
module SchedulerBackoff {
  import opened Wrappers
  import opened OperationTypes
  import opened OperationResult
  import opened SchedulerWorld
  import opened SchedulerInvariant
  import opened SchedulerSafety

  /** From the given time on, the operation is ready for a retry only more than 30 s after its recording. */
  ghost predicate KeepsBackoff(op: Operation, recorded: int, from: int) {
    forall now :: from <= now && op.IsReadyForRetryExecution(now) ==> recorded + 30 * SECOND < now
  }

  /** At whatever time it is asked, an operation that waits for a retry keeps the 30 s. */
  ghost predicate AlwaysKeepsBackoff(op: Operation, recorded: int) {
    forall now :: op.IsReadyForRetryExecution(now) ==> recorded + 30 * SECOND < now
  }

  lemma AlwaysKeptExactlyWhen(op: Operation, recorded: int)
    requires op.IsWaitingForRetryExecution() && op.CurrentTaskFinished().Some?
    ensures AlwaysKeepsBackoff(op, recorded) <==> recorded <= op.CurrentTaskFinished().value
  {
    var now := op.CurrentTaskFinished().value + RETRY_BACKOFF + 1;
    assert op.IsReadyForRetryExecution(now);
  }

  lemma KeptExactlyWhen(op: Operation, recorded: int, from: int)
    requires op.IsWaitingForRetryExecution() && op.CurrentTaskFinished().Some?
    ensures KeepsBackoff(op, recorded, from) <==>
      recorded <= op.CurrentTaskFinished().value || recorded + 30 * SECOND < from
  {
    if op.CurrentTaskFinished().value < recorded && from <= recorded + 30 * SECOND {
      assert op.IsReadyForRetryExecution(recorded + RETRY_BACKOFF);
    }
  }

  /** A first execution that fails at once keeps the 30 s exactly when it is recorded on a whole second. */
  lemma FailedAtOnceKeepsExactlyWhen(op: Operation, res: TaskResult, now: int)
    requires IsFresh(op) && op.spec.errorPolicy == Retry && !op.meta.paused
    requires res.state == CompletedWithError && res.taskId != "" && res.startedAt.Some?
    ensures
      var failed := UpdateResult(op, Some(res), true, now).0;
      && failed.IsWaitingForRetryExecution() && failed.CurrentTaskFinished() == Some(WholeSeconds(now))
      && (AlwaysKeepsBackoff(failed, now) <==> now % SECOND == 0)
  {
    var failed := UpdateResult(op, Some(res), true, now).0;
    assert failed.CurrentTaskFinished() == Some(WholeSeconds(now));
    AlwaysKeptExactlyWhen(failed, now);
  }

  /**
   In every reachable state, an operation that waits for a retry keeps the 30 s
   after its last recorded execution exactly when that was recorded on a whole
   second, or its end was noted in a later second, or the 30 s are over already.
   */
  lemma RunKeepsBackoffExactlyWhen(w: World, events: seq<Event>, name: string)
    requires IsInitial(w) && IsRun(w, events)
    requires
      var w' := Play(w, events);
      && name in w'.ops && w'.ops[name].IsValid() && w'.ops[name].CurrentTaskKind() != StopExecution
      && w'.ops[name].IsWaitingForRetryExecution() && w'.ops[name].CurrentTaskFinished().Some?
    ensures Of(Play(w, events).runs, name) != []
    ensures
      var w' := Play(w, events);
      var op, runs := w'.ops[name], Of(w'.runs, name);
      var recorded, noted := runs[|runs| - 1].recorded, op.CurrentTaskFinished().value;
      && (AlwaysKeepsBackoff(op, recorded) <==> recorded % SECOND == 0 || WholeSeconds(recorded) < noted)
      && (KeepsBackoff(op, recorded, w'.clock) <==>
          recorded % SECOND == 0 || WholeSeconds(recorded) < noted || recorded + 30 * SECOND < w'.clock)
  {
    InitialInv(w);
    RunKeeps(w, events);
    var w' := Play(w, events);
    hide KeepsBackoff, AlwaysKeepsBackoff, IsRun, Play;
    var op, runs := w'.ops[name], Of(w'.runs, name);
    assert RecordOk(op, w'.cc, w'.clock, Of(w'.attempts, name), runs);
    var recorded, noted := runs[|runs| - 1].recorded, op.CurrentTaskFinished().value;
    AlwaysKeptExactlyWhen(op, recorded);
    KeptExactlyWhen(op, recorded, w'.clock);
    NotedLater(noted, recorded);
  }

  lemma NotedLater(noted: int, recorded: int)
    requires IsNoted(Some(noted), recorded)
    ensures recorded <= noted <==> recorded % SECOND == 0 || WholeSeconds(recorded) < noted
  {
  }
}
