/**
What each committed operation leaves in the store: the document that it writes, field by field, compared
with the document that it replaced, in every run.
*/
module TaskCommits {
  import opened Wrappers
  import opened Backoff
  import opened VersionedStore
  import opened Tasks
  import opened TaskPersistence
  import opened TaskProtocol

  /** Version v was written by the operation, over version p. */
  ghost predicate Wrote(s: TaskStore, p: Version, op: Op, v: Version) {
    p < |s.log| && v < |s.log| && s.log[v].cause == By(op) && s.log[v].replaced == Some(p)
  }

  /** The document was well formed and becomes what the operation makes of it. */
  ghost predicate Becomes(before: PersistedTask, op: Op, after: PersistedTask) {
    && WellFormed(ToDomainTask(before))
    && HasRoom(before.retryTimes)
    && before.remainingAttempts == before.retryTimes + 1 - ToDomainTask(before).attempted
    && Apply(op, ToDomainTask(before)).Success?
    && after == ToPersistedTask(Apply(op, ToDomainTask(before)).value)
  }

  lemma {:induction false} WroteOneTransition(actions: seq<Action>, p: Version, op: Op, v: Version)
    requires Wrote(Run(Initial(), actions).store, p, op, v)
    ensures var s := Run(Initial(), actions).store; Becomes(s.log[p].doc, op, s.log[v].doc)
  {
    hide Run, Valid;
    var w := Run(Initial(), actions);
    ReachableInv(actions);
    assert EntryOk(w.store, v) && EntryOk(w.store, p);
    var before, after := w.store.log[p].doc, w.store.log[v].doc;
    LoadThenPersist(after);
    hide Inv, EntryOk, ToPersistedTask;
    EligibleKeepsWellFormed(op, before);
    ApplySucceedsExactlyWhen(op, ToDomainTask(before));
    FilterHidesNoLiveTask(before, 0);
  }

  /** The attempts that are stored as remaining, for a count that has room for the attempts made. */
  lemma Remaining(retryTimes: Uint, attempted: int)
    requires HasRoom(retryTimes) && 0 <= attempted <= retryTimes + 1
    ensures Wrap(attempted) == attempted && Wrap(retryTimes + 1 - attempted) == retryTimes + 1 - attempted
  {
  }

  lemma Claiming(before: PersistedTask, op: Op, after: PersistedTask)
    requires op.ClaimBy? && Becomes(before, op, after)
    ensures before.state in {QUEUED, FAILED} && before.remainingAttempts > 0
    ensures after == before.(
              state := CLAIMED,
              remainingAttempts := before.remainingAttempts - 1,
              lastClaimed := Some(Claim(op.worker, op.at, op.at + before.processingTimeout, None, None)),
              modifiedAt := op.at)
  {
    var t := ToDomainTask(before);
    Remaining(t.retryTimes, t.attempted + 1);
    hide Wrap, BackoffOk, ClaimOk;
  }

  /** A claim takes one of the attempts that remain, and starts a claim record of its own: by that worker, from
      the time of the claim, with the deadline a processing timeout later. Nothing else changes. */
  lemma {:induction false} ClaimStores(actions: seq<Action>, p: Version, op: Op, v: Version)
    requires op.ClaimBy? && Wrote(Run(Initial(), actions).store, p, op, v)
    ensures var before, after := Run(Initial(), actions).store.log[p].doc, Run(Initial(), actions).store.log[v].doc;
      && before.state in {QUEUED, FAILED} && before.remainingAttempts > 0
      && after == before.(
           state := CLAIMED,
           remainingAttempts := before.remainingAttempts - 1,
           lastClaimed := Some(Claim(op.worker, op.at, op.at + before.processingTimeout, None, None)),
           modifiedAt := op.at)
  {
    hide Run, Becomes;
    WroteOneTransition(actions, p, op, v);
    var s := Run(Initial(), actions).store;
    Claiming(s.log[p].doc, op, s.log[v].doc);
  }

  /** Whatever needs a claim finds it held by the worker, and leaves everything in the document as it is that
      the operation does not name. */
  lemma Holding(before: PersistedTask, op: Op, after: PersistedTask)
    requires !op.ClaimBy? && Becomes(before, op, after)
    ensures before.state == CLAIMED && before.lastClaimed.Some? && before.remainingAttempts <= before.retryTimes
    ensures !op.Reap? ==> before.lastClaimed.value.workerId == op.worker
    ensures ToPersistedTask(ToDomainTask(before)) == before
  {
    hide BackoffOk, ClaimOk, ToPersistedTask;
    LoadThenPersist(before);
    ApplySucceedsExactlyWhen(op, ToDomainTask(before));
  }

  /** A report is stored with its own time and data, and moves the deadline to a processing timeout after it;
      nothing else of the task or of its claim changes. */
  lemma {:induction false} ReportStores(actions: seq<Action>, p: Version, op: Op, v: Version)
    requires op.ReportBy? && Wrote(Run(Initial(), actions).store, p, op, v)
    ensures var before, after := Run(Initial(), actions).store.log[p].doc, Run(Initial(), actions).store.log[v].doc;
      && before.state == CLAIMED && before.lastClaimed.Some? && before.lastClaimed.value.workerId == op.worker
      && after.lastClaimed.Some?
      && after.lastClaimed.value.lastReport == Some(Report(op.at, op.data))
      && after.lastClaimed.value.timesOutAt == op.at + before.processingTimeout
      && after.lastClaimed.value == before.lastClaimed.value.(
           lastReport := after.lastClaimed.value.lastReport,
           timesOutAt := after.lastClaimed.value.timesOutAt)
      && after == before.(lastClaimed := after.lastClaimed, modifiedAt := op.at)
  {
    hide Run, WellFormed;
    WroteOneTransition(actions, p, op, v);
    var s := Run(Initial(), actions).store;
    Holding(s.log[p].doc, op, s.log[v].doc);
  }

  /** A success is stored as the claim's result, with its time and data; the task is DONE. */
  lemma {:induction false} DoneStores(actions: seq<Action>, p: Version, op: Op, v: Version)
    requires op.DoneBy? && Wrote(Run(Initial(), actions).store, p, op, v)
    ensures var before, after := Run(Initial(), actions).store.log[p].doc, Run(Initial(), actions).store.log[v].doc;
      && before.state == CLAIMED && before.lastClaimed.Some? && before.lastClaimed.value.workerId == op.worker
      && after == before.(
           state := DONE,
           lastClaimed := Some(before.lastClaimed.value.(result := Some(Completion(op.at, None, op.success)))),
           modifiedAt := op.at)
  {
    hide Run, WellFormed;
    WroteOneTransition(actions, p, op, v);
    var s := Run(Initial(), actions).store;
    Holding(s.log[p].doc, op, s.log[v].doc);
  }

  /** What a failure says, of a worker or of the reaper. */
  function FailureOf(op: Op): Option<Json>
    requires op.FailBy? || op.Reap?
  {
    if op.FailBy? then op.failure else Some("timed_out: Did not finish before claim timeout period")
  }

  lemma Failing(before: PersistedTask, op: Op, after: PersistedTask)
    requires (op.FailBy? || op.Reap?) && Becomes(before, op, after)
    requires before.state == CLAIMED && before.lastClaimed.Some? && before.remainingAttempts <= before.retryTimes
    requires ToPersistedTask(ToDomainTask(before)) == before
    ensures after.lastClaimed == Some(before.lastClaimed.value.(result := Some(Completion(op.at, FailureOf(op), None))))
    ensures if before.remainingAttempts > 0 then
              after == before.(
                state := FAILED,
                runAt := op.at + WaitSeconds(before.retryTimes - before.remainingAttempts, op.jitter) * SECOND,
                lastEnqueuedAt := op.at,
                lastClaimed := after.lastClaimed,
                modifiedAt := op.at)
            else after == before.(state := DEAD, lastClaimed := after.lastClaimed, modifiedAt := op.at)
  {
    hide WaitSeconds, BackoffOk, ClaimOk;
    var t := ToDomainTask(before);
    Remaining(t.retryTimes, t.attempted);
    assert RemainingAttempts(t) == before.remainingAttempts;
    assert RetriesSoFar(t) == before.retryTimes - before.remainingAttempts;
    hide WellFormed, RemainingAttempts, RetriesSoFar, Wrap;
  }

  /** A failure is stored as the claim's result. With attempts left, the task is FAILED and due after the wait
      for the retries that it has had, drawn with the operation's jitter; with none it is DEAD, and RunAt and
      LastEnqueuedAt stay. The attempts that remain stay the same in both cases. */
  lemma {:induction false} FailureStores(actions: seq<Action>, p: Version, op: Op, v: Version)
    requires (op.FailBy? || op.Reap?) && Wrote(Run(Initial(), actions).store, p, op, v)
    ensures var before, after := Run(Initial(), actions).store.log[p].doc, Run(Initial(), actions).store.log[v].doc;
      && before.state == CLAIMED && before.lastClaimed.Some?
      && (op.FailBy? ==> before.lastClaimed.value.workerId == op.worker)
      && before.remainingAttempts <= before.retryTimes
      && after.lastClaimed ==
         Some(before.lastClaimed.value.(result := Some(Completion(op.at, FailureOf(op), None))))
      && (if before.remainingAttempts > 0 then
            after == before.(
              state := FAILED,
              runAt := op.at + WaitSeconds(before.retryTimes - before.remainingAttempts, op.jitter) * SECOND,
              lastEnqueuedAt := op.at,
              lastClaimed := after.lastClaimed,
              modifiedAt := op.at)
          else after == before.(state := DEAD, lastClaimed := after.lastClaimed, modifiedAt := op.at))
  {
    hide Run, Becomes, WaitSeconds, FailureOf, ToPersistedTask, ToDomainTask;
    WroteOneTransition(actions, p, op, v);
    var s := Run(Initial(), actions).store;
    Holding(s.log[p].doc, op, s.log[v].doc);
    Failing(s.log[p].doc, op, s.log[v].doc);
  }

  lemma Unclaiming(before: PersistedTask, op: Op, after: PersistedTask)
    requires op.UnclaimBy? && Becomes(before, op, after)
    requires before.state == CLAIMED && before.lastClaimed.Some? && before.remainingAttempts <= before.retryTimes
    ensures before.remainingAttempts + 1 < UINT_SIZE
    ensures after == before.(
              state := QUEUED,
              remainingAttempts := before.remainingAttempts + 1,
              lastEnqueuedAt := op.at,
              modifiedAt := op.at)
  {
    var t := ToDomainTask(before);
    Remaining(t.retryTimes, t.attempted - 1);
    hide Wrap, BackoffOk, ClaimOk;
  }

  /** An unclaim gives the attempt back and puts the task into the queue anew; the claim record and RunAt stay. */
  lemma {:induction false} UnclaimStores(actions: seq<Action>, p: Version, op: Op, v: Version)
    requires op.UnclaimBy? && Wrote(Run(Initial(), actions).store, p, op, v)
    ensures var before, after := Run(Initial(), actions).store.log[p].doc, Run(Initial(), actions).store.log[v].doc;
      && before.state == CLAIMED && before.lastClaimed.Some? && before.lastClaimed.value.workerId == op.worker
      && before.remainingAttempts + 1 < UINT_SIZE
      && after == before.(
           state := QUEUED,
           remainingAttempts := before.remainingAttempts + 1,
           lastEnqueuedAt := op.at,
           modifiedAt := op.at)
  {
    hide Run, Becomes;
    WroteOneTransition(actions, p, op, v);
    var s := Run(Initial(), actions).store;
    Holding(s.log[p].doc, op, s.log[v].doc);
    Unclaiming(s.log[p].doc, op, s.log[v].doc);
  }

  /** A creation stores what was asked for, queued, unclaimed and stamped with the clock reading, with one attempt
      more than the retries that were asked for, if the count leaves room for it. */
  lemma {:induction false} CreationStores(actions: seq<Action>, n: NewTask, at: Time, v: Version)
    requires v < |Run(Initial(), actions).store.log| && Run(Initial(), actions).store.log[v].cause == Created(n, at)
    ensures var e := Run(Initial(), actions).store.log[v];
      && e.replaced == None && e.key == Key(n.queue, e.doc.id)
      && Asked(e.doc, n)
      && e.doc.state == QUEUED && e.doc.lastClaimed == None
      && e.doc.remainingAttempts == (if HasRoom(n.retryTimes) then n.retryTimes + 1 else 0)
      && e.doc.lastEnqueuedAt == e.doc.createdAt == e.doc.modifiedAt == at
  {
    hide Run, Valid;
    ReachableInv(actions);
    assert EntryOk(Run(Initial(), actions).store, v);
    hide Inv, WellFormed;
  }

  /** The document carries what the caller asked for. */
  ghost predicate Asked(p: PersistedTask, n: NewTask) {
    && p.queue == n.queue && p.kind == n.kind && p.priority == n.priority && p.retryTimes == n.retryTimes
    && p.runAt == n.runAt && p.processingTimeout == n.processingTimeout
    && p.args == n.args && p.context == n.context && p.recurringTaskId == n.recurringTaskId
  }
}
