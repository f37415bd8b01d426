/**
A task and the transitions a server applies to its own copy of it (internal/domain/task/models.go),
as functions on values. TaskRecord.dfy holds the in-place form and is proved against these.
*/
module Tasks {
  import opened Wrappers
  import opened Backoff

  /** Go's uint on a 64-bit platform; arithmetic on it wraps around. */
  const UINT_SIZE: int := 0x1_0000_0000_0000_0000
  type Uint = n: int | 0 <= n < 0x1_0000_0000_0000_0000

  function Wrap(n: int): Uint { n % UINT_SIZE }

  /** Instants and durations, in nanoseconds. */
  type Time = int
  const SECOND: Time := 1_000_000_000

  /** A JSON object; nothing here looks inside. */
  type Json = string

  datatype State = QUEUED | CLAIMED | FAILED | DONE | DEAD

  datatype Report = Report(at: Time, data: Option<Json>)

  datatype Completion = Completion(at: Time, failure: Option<Json>, success: Option<Json>)

  datatype Claim = Claim(
    workerId: string,
    claimedAt: Time,
    timesOutAt: Time,
    lastReport: Option<Report>,
    result: Option<Completion>)

  datatype Task = Task(
    id: string,
    queue: string,
    retryTimes: Uint,
    attempted: Uint,
    kind: string,
    state: State,
    priority: int,
    runAt: Time,
    processingTimeout: Time,
    args: Option<Json>,
    context: Option<Json>,
    lastClaimed: Option<Claim>,
    lastEnqueuedAt: Time,
    createdAt: Time,
    modifiedAt: Time,
    recurringTaskId: Option<string>)

  datatype TaskError =
    | Unclaimable(current: State)
    | NotClaimed(state: State)
    | NotOwnedByWorker(wanted: string)
    | ReportFromThePast(attemptedTime: Time, existingTime: Time)

  // ---- the transitions ----

  function RemainingAttempts(t: Task): Uint {
    if Wrap(t.retryTimes + 1) < t.attempted then 0 else Wrap(Wrap(t.retryTimes + 1) - t.attempted)
  }

  function IntoClaimed(t: Task, workerId: string, at: Time): Result<Task, TaskError> {
    if t.state == QUEUED || t.state == FAILED then
      Success(t.(
        state := CLAIMED,
        attempted := Wrap(t.attempted + 1),
        lastClaimed := Some(Claim(workerId, at, at + t.processingTimeout, None, None))))
    else
      Failure(Unclaimable(t.state))
  }

  /** The check that a report, completion or unclaim starts with. */
  function OwnershipError(t: Task, byWorker: string): Option<TaskError> {
    if t.state != CLAIMED then Some(NotClaimed(t.state))
    else if t.lastClaimed.None? || t.lastClaimed.value.workerId != byWorker then Some(NotOwnedByWorker(byWorker))
    else None
  }

  function ReportIn(t: Task, byWorker: string, data: Option<Json>, at: Time): Result<Task, TaskError> {
    match OwnershipError(t, byWorker)
    case Some(e) => Failure(e)
    case None =>
      var c := t.lastClaimed.value;
      if c.lastReport.Some? && c.lastReport.value.at > at then
        Failure(ReportFromThePast(at, c.lastReport.value.at))
      else
        Success(t.(lastClaimed := Some(c.(
          lastReport := Some(Report(at, data)),
          timesOutAt := at + t.processingTimeout))))
  }

  function IntoDone(t: Task, byWorker: string, at: Time, success: Option<Json>): Result<Task, TaskError> {
    match OwnershipError(t, byWorker)
    case Some(e) => Failure(e)
    case None =>
      Success(t.(
        state := DONE,
        lastClaimed := Some(t.lastClaimed.value.(result := Some(Completion(at, None, success))))))
  }

  function RetriesSoFar(t: Task): nat { if t.attempted > 0 then t.attempted - 1 else 0 }

  function IntoFailed(t: Task, byWorker: string, at: Time, failure: Option<Json>,
                      jitter: Jitter): Result<Task, TaskError> {
    match OwnershipError(t, byWorker)
    case Some(e) => Failure(e)
    case None =>
      var failed :=
        if RemainingAttempts(t) > 0 then
          t.(runAt := at + WaitSeconds(RetriesSoFar(t), jitter) * SECOND,
             lastEnqueuedAt := at,
             state := FAILED)
        else
          t.(state := DEAD);
      Success(failed.(lastClaimed := Some(t.lastClaimed.value.(result := Some(Completion(at, failure, None))))))
  }

  function IntoUnClaimed(t: Task, byWorker: string, at: Time): Result<Task, TaskError> {
    match OwnershipError(t, byWorker)
    case Some(e) => Failure(e)
    case None => Success(t.(state := QUEUED, attempted := Wrap(t.attempted - 1), lastEnqueuedAt := at))
  }

  // ---- the operations of the service, each one transition plus the modification time ----

  datatype Op =
    | ClaimBy(worker: string, searchedAt: Time, at: Time)
    | ReportBy(worker: string, data: Option<Json>, at: Time)
    | DoneBy(worker: string, at: Time, success: Option<Json>)
    | FailBy(worker: string, at: Time, failure: Option<Json>, jitter: Jitter)
    | UnclaimBy(worker: string, at: Time)
    | Reap(at: Time, jitter: Jitter)

  const TIMED_OUT: Option<Json> := Some("timed_out: Did not finish before claim timeout period")

  /** Applies the transition alone. The reaper fails the task in its claimer's name. */
  function Transition(op: Op, t: Task): Result<Task, TaskError> {
    match op
    case ClaimBy(worker, _, at) => IntoClaimed(t, worker, at)
    case ReportBy(worker, data, at) => ReportIn(t, worker, data, at)
    case DoneBy(worker, at, success) => IntoDone(t, worker, at, success)
    case FailBy(worker, at, failure, jitter) => IntoFailed(t, worker, at, failure, jitter)
    case UnclaimBy(worker, at) => IntoUnClaimed(t, worker, at)
    case Reap(now, jitter) =>
      if t.lastClaimed.None? then Failure(NotClaimed(t.state))
      else IntoFailed(t, t.lastClaimed.value.workerId, now, TIMED_OUT, jitter)
  }

  function Apply(op: Op, t: Task): Result<Task, TaskError> {
    match Transition(op, t)
    case Success(u) => Success(u.(modifiedAt := op.at))
    case Failure(e) => Failure(e)
  }

  // ---- what every stored task satisfies ----

  /** The retry count leaves room for one attempt more; the largest does not. */
  predicate HasRoom(retryTimes: Uint) { retryTimes + 1 < UINT_SIZE }

  /** How many attempts a task may have used in each state. Without room for one it stays as created. */
  ghost predicate AttemptsOk(t: Task) {
    && (!HasRoom(t.retryTimes) ==> t.state == QUEUED && t.attempted == 0)
    && match t.state
       case QUEUED => t.attempted <= t.retryTimes
       case FAILED => 1 <= t.attempted <= t.retryTimes
       case CLAIMED => 1 <= t.attempted <= t.retryTimes + 1
       case DONE => 1 <= t.attempted <= t.retryTimes + 1
       case DEAD => t.attempted == t.retryTimes + 1
  }

  /** When the claim last showed a sign of life. */
  function LastHeardOf(c: Claim): Time { if c.lastReport.Some? then c.lastReport.value.at else c.claimedAt }

  /** The deadline counts from the last sign of life, and a result is present exactly in the states
      that a completion leads to, of the right kind. */
  ghost predicate ClaimOk(t: Task) {
    && (t.state != QUEUED ==> t.lastClaimed.Some?)
    && (t.lastClaimed.Some? ==>
          var c := t.lastClaimed.value;
          && c.timesOutAt == LastHeardOf(c) + t.processingTimeout
          && (c.result.Some? <==> t.state in {DONE, FAILED, DEAD})
          && (t.state in {FAILED, DEAD} ==> c.result.value.success == None)
          && (t.state == DONE ==> c.result.value.failure == None))
  }

  /** A failed task waits for its back-off, counted from the failure. */
  ghost predicate BackoffOk(t: Task) {
    t.state == FAILED && t.lastClaimed.Some? && t.lastClaimed.value.result.Some? ==>
      var failedAt, r := t.lastClaimed.value.result.value.at, t.attempted - 1;
      && failedAt + (11 + r) * SECOND <= t.runAt <= failedAt + (19 + r + 29 * (r + 1)) * SECOND
      && t.lastEnqueuedAt == failedAt
  }

  ghost predicate WellFormed(t: Task) { AttemptsOk(t) && ClaimOk(t) && BackoffOk(t) }

  /** What no transition changes. */
  ghost predicate SameIdentity(t: Task, u: Task) {
    && t.id == u.id && t.queue == u.queue && t.retryTimes == u.retryTimes && t.kind == u.kind
    && t.priority == u.priority && t.processingTimeout == u.processingTimeout && t.args == u.args
    && t.context == u.context && t.createdAt == u.createdAt && t.recurringTaskId == u.recurringTaskId
  }

  lemma FailureKeepsWellFormed(t: Task, byWorker: string, at: Time, failure: Option<Json>, jitter: Jitter)
    requires WellFormed(t) && IntoFailed(t, byWorker, at, failure, jitter).Success?
    ensures var u := IntoFailed(t, byWorker, at, failure, jitter).value;
      WellFormed(u) && SameIdentity(t, u) && u.attempted == t.attempted
  {
    hide WaitSeconds;
    WaitBounds(RetriesSoFar(t), jitter);
  }

  /** Every transition that succeeds keeps the invariants, so an unclaim never takes the attempt
      count below zero and a claim never takes it past the maximum. */
  lemma ApplyKeepsWellFormed(op: Op, t: Task)
    requires WellFormed(t) && Apply(op, t).Success? && (op.ClaimBy? ==> HasRoom(t.retryTimes))
    ensures WellFormed(Apply(op, t).value) && SameIdentity(t, Apply(op, t).value)
    ensures op.ClaimBy? ==> Apply(op, t).value.attempted == t.attempted + 1
    ensures op.UnclaimBy? ==> Apply(op, t).value.attempted == t.attempted - 1
    ensures !op.ClaimBy? && !op.UnclaimBy? ==> Apply(op, t).value.attempted == t.attempted
  {
    hide IntoFailed;
    match op
    case FailBy(worker, at, failure, jitter) => FailureKeepsWellFormed(t, worker, at, failure, jitter);
    case Reap(now, jitter) => FailureKeepsWellFormed(t, t.lastClaimed.value.workerId, now, TIMED_OUT, jitter);
    case _ =>
  }

  /** A transition succeeds exactly from the states and for the worker it is meant for. */
  lemma ApplySucceedsExactlyWhen(op: Op, t: Task)
    requires WellFormed(t)
    ensures op.ClaimBy? ==> (Apply(op, t).Success? <==> t.state in {QUEUED, FAILED})
    ensures op.Reap? ==> (Apply(op, t).Success? <==> t.state == CLAIMED)
    ensures op.DoneBy? || op.FailBy? || op.UnclaimBy? ==>
      (Apply(op, t).Success? <==> t.state == CLAIMED && t.lastClaimed.value.workerId == op.worker)
    ensures op.ReportBy? ==>
      (Apply(op, t).Success? <==>
       && t.state == CLAIMED && t.lastClaimed.value.workerId == op.worker
       && (t.lastClaimed.value.lastReport.Some? ==> t.lastClaimed.value.lastReport.value.at <= op.at))
  {
  }

  /** What a refusal says: a claim, which state is in the way; for all else, first that the task is not
      claimed, then that another worker holds it, and for a report that a later one came before it. */
  lemma RefusalSays(op: Op, t: Task)
    requires WellFormed(t) && Apply(op, t).Failure?
    ensures Apply(op, t).error ==
      if op.ClaimBy? then Unclaimable(t.state)
      else if t.state != CLAIMED then NotClaimed(t.state)
      else if op.Reap? || op.worker != t.lastClaimed.value.workerId then
        NotOwnedByWorker(if op.Reap? then t.lastClaimed.value.workerId else op.worker)
      else if op.ReportBy? && t.lastClaimed.value.lastReport.Some? then
        ReportFromThePast(op.at, t.lastClaimed.value.lastReport.value.at)
      else NotClaimed(t.state)
  {
  }

  /** A failure, reported or by timeout, kills the task exactly when it was its last attempt. */
  lemma FailureKillsExactlyAtLastAttempt(op: Op, t: Task)
    requires WellFormed(t) && (op.FailBy? || op.Reap?) && Apply(op, t).Success?
    ensures Apply(op, t).value.state == DEAD <==> t.attempted == t.retryTimes + 1
    ensures Apply(op, t).value.state == FAILED <==> t.attempted <= t.retryTimes
  {
    assert t.state == CLAIMED;
  }

  // ---- transitions in sequence ----

  /** An unclaim gives back what the claim took: only the claim record and the time of the last enqueuing
      tell, and a FAILED task comes back as QUEUED with its RunAt. */
  lemma UnclaimUndoesClaim(t: Task, worker: string, at: Time, unclaimedAt: Time)
    requires WellFormed(t) && IntoClaimed(t, worker, at).Success?
    ensures IntoUnClaimed(IntoClaimed(t, worker, at).value, worker, unclaimedAt) ==
            Success(t.(
              state := QUEUED,
              lastClaimed := Some(Claim(worker, at, at + t.processingTimeout, None, None)),
              lastEnqueuedAt := unclaimedAt))
  {
  }

  /** A later report supersedes an earlier one without a trace, deadline included; an earlier one is
      refused after a later one. */
  lemma LaterReportSupersedes(t: Task, worker: string, first: Option<Json>, at: Time, second: Option<Json>, later: Time)
    requires ReportIn(t, worker, first, at).Success?
    ensures ReportIn(ReportIn(t, worker, first, at).value, worker, second, later) ==
            if at <= later then ReportIn(t, worker, second, later) else Failure(ReportFromThePast(later, at))
  {
  }

  /** A completion of either kind ends the claim: it changes nothing of the claim but its result, and no
      report, completion or unclaim by anybody succeeds after it. */
  lemma CompletionEndsClaim(op: Op, t: Task, next: Op)
    requires WellFormed(t) && (op.DoneBy? || op.FailBy? || op.Reap?) && Apply(op, t).Success?
    ensures var u := Apply(op, t).value;
      && t.lastClaimed.Some? && u.lastClaimed.Some? && u.lastClaimed.value.result.Some?
      && u.lastClaimed.value.(result := None) == t.lastClaimed.value
      && u.lastClaimed.value.result.value.at == op.at
      && u.lastClaimed.value.result.value.success == (if op.DoneBy? then op.success else None)
      && u.lastClaimed.value.result.value.failure ==
          (if op.FailBy? then op.failure else if op.Reap? then TIMED_OUT else None)
      && (next.ClaimBy? || Apply(next, u).Failure?)
      && (next.ClaimBy? ==> (Apply(next, u).Success? <==> u.state == FAILED))
  {
    hide WaitSeconds;
  }
}
