/**
How a task is laid out in its document, the searches that select documents, and the round trip
between the two layouts (internal/infra/elasticsearch/task/service.go). The document stores the
attempts that remain where the task counts the attempts made; both are uints and wrap around.
*/
module TaskPersistence {
  import opened Wrappers
  import opened Tasks

  datatype PersistedTask = PersistedTask(
    id: string,
    queue: string,
    retryTimes: Uint,
    remainingAttempts: Uint,
    kind: string,
    state: State,
    runAt: Time,
    processingTimeout: Time,
    priority: int,
    args: Option<Json>,
    context: Option<Json>,
    lastEnqueuedAt: Time,
    lastClaimed: Option<Claim>,
    createdAt: Time,
    modifiedAt: Time,
    recurringTaskId: Option<string>)

  /** A task that an API user or the scheduler asks for. */
  datatype NewTask = NewTask(
    queue: string,
    retryTimes: Uint,
    kind: string,
    priority: int,
    runAt: Time,
    processingTimeout: Time,
    args: Option<Json>,
    context: Option<Json>,
    recurringTaskId: Option<string>)

  function ToDomainTask(p: PersistedTask): Task {
    Task(p.id, p.queue, p.retryTimes, Wrap(p.retryTimes + 1 - p.remainingAttempts), p.kind, p.state, p.priority,
         p.runAt, p.processingTimeout, p.args, p.context, p.lastClaimed, p.lastEnqueuedAt, p.createdAt, p.modifiedAt,
         p.recurringTaskId)
  }

  function ToPersistedTask(t: Task): PersistedTask {
    PersistedTask(t.id, t.queue, t.retryTimes, Wrap(t.retryTimes + 1 - t.attempted), t.kind, t.state, t.runAt,
                  t.processingTimeout, t.priority, t.args, t.context, t.lastEnqueuedAt, t.lastClaimed, t.createdAt,
                  t.modifiedAt, t.recurringTaskId)
  }

  /** The document that Create writes. */
  function NewDocument(n: NewTask, id: string, now: Time): PersistedTask {
    PersistedTask(id, n.queue, n.retryTimes, Wrap(n.retryTimes + 1), n.kind, QUEUED, n.runAt, n.processingTimeout,
                  n.priority, n.args, n.context, now, None, now, now, n.recurringTaskId)
  }

  // ---- search filters ----

  /** buildClaimableQueryBody */
  predicate Claimable(p: PersistedTask, now: Time) {
    p.runAt <= now && p.remainingAttempts > 0 && (p.state == QUEUED || p.state == FAILED)
  }

  /** buildTimedOutSearchBody */
  predicate TimedOut(p: PersistedTask, now: Time) {
    p.lastClaimed.Some? && p.lastClaimed.value.timesOutAt <= now && p.state == CLAIMED
  }

  /** buildArchivableSearchBody */
  predicate Archivable(p: PersistedTask, completedBefore: Time) {
    && p.lastClaimed.Some? && p.lastClaimed.value.result.Some?
    && p.lastClaimed.value.result.value.at <= completedBefore
    && (p.state == DONE || p.state == DEAD)
  }

  /** buildOutstandingTasksCountQuery */
  predicate OutstandingFor(p: PersistedTask, recurringTaskId: string) {
    p.recurringTaskId == Some(recurringTaskId) && (p.state == QUEUED || p.state == FAILED || p.state == CLAIMED)
  }

  // ---- round trips ----

  /** Wrapping twice around the same base undoes itself. */
  lemma WrapTwice(base: int, a: Uint)
    ensures Wrap(base - Wrap(base - a)) == a
  {
    var q := (base - a) / UINT_SIZE;
    assert Wrap(base - a) == base - a - q * UINT_SIZE;
    assert base - Wrap(base - a) == a + q * UINT_SIZE;
  }

  /** Persisting a task and reloading it is the identity, for every task and not only for reachable ones. */
  lemma PersistThenReload(t: Task)
    ensures ToDomainTask(ToPersistedTask(t)) == t
  {
    WrapTwice(t.retryTimes + 1, t.attempted);
  }

  /** So is loading a document and writing it back. */
  lemma LoadThenPersist(p: PersistedTask)
    ensures ToPersistedTask(ToDomainTask(p)) == p
  {
    WrapTwice(p.retryTimes + 1, p.remainingAttempts);
  }

  lemma NewDocumentIsWellFormed(n: NewTask, id: string, now: Time)
    ensures WellFormed(ToDomainTask(NewDocument(n, id, now)))
    ensures ToDomainTask(NewDocument(n, id, now)).attempted == 0
  {
  }

  /** A new task says what was asked for, and nothing has happened to it. */
  ghost predicate StartsAs(t: Task, n: NewTask, id: string, now: Time) {
    && t.id == id && t.queue == n.queue && t.kind == n.kind && t.priority == n.priority
    && t.retryTimes == n.retryTimes && t.runAt == n.runAt && t.processingTimeout == n.processingTimeout
    && t.args == n.args && t.context == n.context && t.recurringTaskId == n.recurringTaskId
    && t.state == QUEUED && t.attempted == 0 && t.lastClaimed == None
    && t.lastEnqueuedAt == t.createdAt == t.modifiedAt == now
  }

  lemma NewDocumentStarts(n: NewTask, id: string, now: Time)
    ensures StartsAs(ToDomainTask(NewDocument(n, id, now)), n, id, now)
  {
  }

  /** The stored number of remaining attempts is the one the domain computes, and the claim search
      filter on it hides no task that may still run, unless its retry count leaves no room for an attempt. */
  lemma FilterHidesNoLiveTask(p: PersistedTask, now: Time)
    requires WellFormed(ToDomainTask(p))
    ensures p.remainingAttempts == RemainingAttempts(ToDomainTask(p))
    ensures HasRoom(p.retryTimes) ==> p.remainingAttempts == p.retryTimes + 1 - ToDomainTask(p).attempted
    ensures Claimable(p, now) <==> p.state in {QUEUED, FAILED} && p.runAt <= now && HasRoom(p.retryTimes)
  {
    var t := ToDomainTask(p);
    LoadThenPersist(p);
    if HasRoom(p.retryTimes) { assert 0 <= t.retryTimes + 1 - t.attempted < UINT_SIZE; }
  }

  /** A new task can ever be claimed exactly when its retry count leaves room for one attempt more. */
  lemma NewTaskClaimableExactlyWhen(n: NewTask, id: string, now: Time, later: Time)
    requires n.runAt <= later
    ensures Claimable(NewDocument(n, id, now), later) <==> HasRoom(n.retryTimes)
  {
  }

  /** What the searches of the reaper, the archiver and the recurring jobs mean for a stored task. */
  lemma FiltersMean(p: PersistedTask, time: Time, rid: string)
    requires WellFormed(ToDomainTask(p))
    ensures TimedOut(p, time) <==> p.state == CLAIMED && LastHeardOf(p.lastClaimed.value) + p.processingTimeout <= time
    ensures Archivable(p, time) <==> p.state in {DONE, DEAD} && p.lastClaimed.value.result.value.at <= time
    ensures OutstandingFor(p, rid) <==> p.recurringTaskId == Some(rid) && p.state !in {DONE, DEAD}
  {
    assert ToDomainTask(p).lastClaimed == p.lastClaimed;
  }
}
