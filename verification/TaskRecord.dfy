/**
The in-place form of a task (the Task and LastClaimed structs of internal/domain/task/models.go).
Each method is proved against the function of the same name in Tasks: on success the object holds
exactly the new value, on an error it is unchanged. A claim gets a LastClaimed object of its own,
while reports and completions write through the existing pointer.
*/
module TaskRecords {
  import opened Wrappers
  import opened Backoff
  import opened VersionedStore
  import opened Tasks
  import opened TaskPersistence

  class LastClaimedRecord {
    var workerId: string
    var claimedAt: Time
    var timesOutAt: Time
    var lastReport: Option<Report>
    var result: Option<Completion>

    constructor (c: Claim)
      ensures Value() == c
    {
      workerId, claimedAt, timesOutAt := c.workerId, c.claimedAt, c.timesOutAt;
      lastReport, result := c.lastReport, c.result;
    }

    function Value(): Claim
      reads this
    {
      Claim(workerId, claimedAt, timesOutAt, lastReport, result)
    }
  }

  class TaskRecord {
    const id: string
    const queue: string
    const retryTimes: Uint
    var attempted: Uint
    const kind: string
    var state: State
    const priority: int
    var runAt: Time
    const processingTimeout: Time
    const args: Option<Json>
    const context: Option<Json>
    var lastClaimed: LastClaimedRecord?
    var lastEnqueuedAt: Time
    const createdAt: Time
    var modifiedAt: Time
    var version: Version
    const recurringTaskId: Option<string>

    /** toDomainTask */
    constructor (p: PersistedTask, version: Version)
      ensures Value() == ToDomainTask(p) && this.version == version
      ensures fresh(Claims())
    {
      id, queue, retryTimes, kind, priority := p.id, p.queue, p.retryTimes, p.kind, p.priority;
      attempted := Wrap(p.retryTimes + 1 - p.remainingAttempts);
      state, runAt, processingTimeout, args, context := p.state, p.runAt, p.processingTimeout, p.args, p.context;
      lastEnqueuedAt, createdAt, modifiedAt := p.lastEnqueuedAt, p.createdAt, p.modifiedAt;
      recurringTaskId := p.recurringTaskId;
      this.version := version;
      lastClaimed := null;
      new;
      if p.lastClaimed.Some? { lastClaimed := new LastClaimedRecord(p.lastClaimed.value); }
    }

    ghost function Claims(): set<object>
      reads this
    {
      if lastClaimed == null then {} else {lastClaimed}
    }

    function Value(): Task
      reads this, lastClaimed
    {
      Task(id, queue, retryTimes, attempted, kind, state, priority, runAt, processingTimeout, args, context,
           if lastClaimed == null then None else Some(lastClaimed.Value()),
           lastEnqueuedAt, createdAt, modifiedAt, recurringTaskId)
    }

    function RemainingAttempts(): Uint
      reads this
    {
      if Wrap(retryTimes + 1) < attempted then 0 else Wrap(Wrap(retryTimes + 1) - attempted)
    }

    method IntoClaimed(workerId: string, at: Time) returns (err: Option<TaskError>)
      modifies this
      ensures Outcome(Tasks.IntoClaimed(old(Value()), workerId, at), old(Value()), err, Value())
      ensures unchanged(`modifiedAt) && unchanged(`version)
      ensures err.Some? ==> unchanged(this)
      ensures err.None? ==> fresh(Claims()) && lastClaimed != null && state == CLAIMED
      ensures err.None? ==> lastClaimed.Value() == Claim(workerId, at, at + processingTimeout, None, None)
    {
      if state == QUEUED || state == FAILED {
        state := CLAIMED;
        attempted := Wrap(attempted + 1);
        lastClaimed := new LastClaimedRecord(Claim(workerId, at, at + processingTimeout, None, None));
        err := None;
      } else {
        err := Some(Unclaimable(state));
      }
    }

    method ReportIn(byWorker: string, data: Option<Json>, at: Time) returns (err: Option<TaskError>)
      modifies this, lastClaimed
      ensures Outcome(Tasks.ReportIn(old(Value()), byWorker, data, at), old(Value()), err, Value())
      ensures unchanged(this)
      ensures err.None? ==>
        && lastClaimed != null
        && lastClaimed.lastReport == Some(Report(at, data)) && lastClaimed.timesOutAt == at + processingTimeout
        && unchanged(lastClaimed`workerId) && unchanged(lastClaimed`claimedAt) && unchanged(lastClaimed`result)
    {
      if state != CLAIMED { return Some(NotClaimed(state)); }
      if lastClaimed == null || lastClaimed.workerId != byWorker { return Some(NotOwnedByWorker(byWorker)); }
      if lastClaimed.lastReport.Some? && lastClaimed.lastReport.value.at > at {
        return Some(ReportFromThePast(at, lastClaimed.lastReport.value.at));
      }
      lastClaimed.lastReport := Some(Report(at, data));
      lastClaimed.timesOutAt := at + processingTimeout;
      err := None;
    }

    method IntoDone(byWorker: string, at: Time, success: Option<Json>) returns (err: Option<TaskError>)
      modifies this, lastClaimed
      ensures Outcome(Tasks.IntoDone(old(Value()), byWorker, at, success), old(Value()), err, Value())
      ensures unchanged(`modifiedAt) && unchanged(`version) && unchanged(`lastClaimed)
      ensures err.None? ==>
        state == DONE && lastClaimed != null && lastClaimed.result == Some(Completion(at, None, success))
    {
      if state != CLAIMED { return Some(NotClaimed(state)); }
      if lastClaimed == null || lastClaimed.workerId != byWorker { return Some(NotOwnedByWorker(byWorker)); }
      state := DONE;
      lastClaimed.result := Some(Completion(at, None, success));
      err := None;
    }

    method IntoFailed(byWorker: string, at: Time, failure: Option<Json>, jitter: Jitter)
      returns (err: Option<TaskError>)
      modifies this, lastClaimed
      ensures Outcome(Tasks.IntoFailed(old(Value()), byWorker, at, failure, jitter), old(Value()), err, Value())
      ensures unchanged(`modifiedAt) && unchanged(`version) && unchanged(`lastClaimed)
      ensures err.None? ==>
        && state in {FAILED, DEAD} && lastClaimed != null && lastClaimed.result == Some(Completion(at, failure, None))
        && (state == DEAD ==> unchanged(`runAt) && unchanged(`lastEnqueuedAt))
    {
      if state != CLAIMED { return Some(NotClaimed(state)); }
      if lastClaimed == null || lastClaimed.workerId != byWorker { return Some(NotOwnedByWorker(byWorker)); }
      hide WaitSeconds, Wrap;
      ghost var t := Value();
      if RemainingAttempts() > 0 {
        var retriesSoFar := if attempted > 0 then attempted - 1 else 0;
        runAt := at + WaitSeconds(retriesSoFar, jitter) * SECOND;
        lastEnqueuedAt := at;
        state := FAILED;
      } else {
        state := DEAD;
      }
      ghost var u := Value();
      assert u ==
             if Tasks.RemainingAttempts(t) > 0 then t.(runAt := runAt, lastEnqueuedAt := at, state := FAILED)
             else t.(state := DEAD);
      lastClaimed.result := Some(Completion(at, failure, None));
      assert Value() == u.(lastClaimed := Some(t.lastClaimed.value.(result := Some(Completion(at, failure, None)))));
      err := None;
    }

    method IntoUnClaimed(byWorker: string, at: Time) returns (err: Option<TaskError>)
      modifies this
      ensures Outcome(Tasks.IntoUnClaimed(old(Value()), byWorker, at), old(Value()), err, Value())
      ensures unchanged(`modifiedAt) && unchanged(`version) && unchanged(`lastClaimed)
      ensures err.None? ==> state == QUEUED && lastEnqueuedAt == at && unchanged(`runAt)
    {
      if state != CLAIMED { return Some(NotClaimed(state)); }
      if lastClaimed == null || lastClaimed.workerId != byWorker { return Some(NotOwnedByWorker(byWorker)); }
      state := QUEUED;
      attempted := Wrap(attempted - 1);
      lastEnqueuedAt := at;
      err := None;
    }
  }

  /** The object holds the expected value, or is as it was and the error is the expected one. */
  ghost predicate Outcome(expected: Result<Task, TaskError>, before: Task, err: Option<TaskError>, after: Task) {
    match expected
    case Success(t) => err == None && after == t
    case Failure(e) => err == Some(e) && after == before
  }
}
