/**
What holds in every run of the task protocol: the concurrent read-mutate-write protocol refines an
atomic state machine, and the promises about attempts, retries, deadlines and ownership carry over
to everything that is ever stored.
*/
module TaskRuns {
  import opened Wrappers
  import opened VersionedStore
  import opened Tasks
  import opened TaskPersistence
  import opened TaskProtocol

  // ---- the atomic machine ----

  /** One task, changed by one operation at a time. */
  function AtomicRun(t: Task, ops: seq<Op>): Result<Task, TaskError> {
    if ops == [] then Success(t)
    else
      match AtomicRun(t, ops[..|ops| - 1])
      case Success(u) => Apply(ops[|ops| - 1], u)
      case Failure(e) => Failure(e)
  }

  /** The creation that version v descends from. */
  ghost function Origin(s: TaskStore, v: Version): (o: Version)
    requires Valid(s) && v < |s.log|
    ensures o <= v && s.log[o].key == s.log[v].key && s.log[o].replaced == None
  {
    assert ChainOk(s, v);
    match s.log[v].replaced
    case None => v
    case Some(p) => Origin(s, p)
  }

  /** The operations whose commits led from that creation to version v. */
  ghost function Lineage(s: TaskStore, v: Version): seq<Op>
    requires Valid(s) && v < |s.log|
  {
    assert ChainOk(s, v);
    match s.log[v].replaced
    case None => []
    case Some(p) => Lineage(s, p) + (if s.log[v].cause.By? then [s.log[v].cause.op] else [])
  }

  /** Refinement: in every run, whatever the interleaving, lost races and lost answers, each version
      ever written is what the atomic machine reaches from a fresh task by the operations committed on
      it, in commit order. */
  lemma {:induction false} StoreRefinesAtomicMachine(actions: seq<Action>, v: Version)
    requires v < |Run(Initial(), actions).store.log|
    ensures var s := Run(Initial(), actions).store;
      && Valid(s)
      && s.log[Origin(s, v)].cause.Created?
      && var c := s.log[Origin(s, v)].cause;
         AtomicRun(ToDomainTask(NewDocument(c.newTask, s.log[v].key.id, c.at)), Lineage(s, v)) == Success(TaskAt(s, v))
  {
    ReachableInv(actions);
    LineageReplays(Run(Initial(), actions), v);
  }

  /** Only tasks whose retry count leaves room for an attempt are ever changed. */
  lemma TransitionHasRoom(w: World, v: Version)
    requires Inv(w) && v < |w.store.log| && w.store.log[v].replaced.Some?
    ensures var p := w.store.log[v].replaced.value;
      && p < v && HasRoom(TaskAt(w.store, v).retryTimes)
      && TaskAt(w.store, p).retryTimes == TaskAt(w.store, v).retryTimes
  {
    assert EntryOk(w.store, v);
    var p := w.store.log[v].replaced.value;
    assert EntryOk(w.store, p);
    EligibleKeepsWellFormed(w.store.log[v].cause.op, w.store.log[p].doc);
    ApplySucceedsExactlyWhen(w.store.log[v].cause.op, TaskAt(w.store, p));
  }

  lemma {:induction false} LineageReplays(w: World, v: Version)
    requires Inv(w) && v < |w.store.log|
    ensures var s := w.store;
      && s.log[Origin(s, v)].cause.Created?
      && var c := s.log[Origin(s, v)].cause;
         && s.log[Origin(s, v)].doc == NewDocument(c.newTask, s.log[v].key.id, c.at)
         && AtomicRun(TaskAt(s, Origin(s, v)), Lineage(s, v)) == Success(TaskAt(s, v))
         && TaskAt(s, Origin(s, v)).retryTimes == TaskAt(s, v).retryTimes
         && (!HasRoom(TaskAt(s, v).retryTimes) ==> Lineage(s, v) == [])
    decreases v
  {
    var s := w.store;
    assert EntryOk(s, v) && ChainOk(s, v);
    if s.log[v].replaced.Some? {
      var p := s.log[v].replaced.value;
      LineageReplays(w, p);
      TransitionHasRoom(w, v);
      var ops := Lineage(s, v);
      assert ops[..|ops| - 1] == Lineage(s, p);
    }
  }

  /** Each write is one transition applied to the very document it replaced, and that document was
      the latest one of its key: nothing was written under the key in between. */
  lemma {:induction false} EachCommitIsOneTransition(actions: seq<Action>, v: Version)
    requires v < |Run(Initial(), actions).store.log|
    requires Run(Initial(), actions).store.log[v].cause.By?
    ensures var s := Run(Initial(), actions).store;
      && s.log[v].replaced.Some?
      && var p := s.log[v].replaced.value;
         && p < v
         && s.log[p].key == s.log[v].key
         && QuietBetween(s, s.log[v].key, p, v)
         && Apply(s.log[v].cause.op, TaskAt(s, p)) == Success(TaskAt(s, v))
  {
    ReachableInv(actions);
    var s := Run(Initial(), actions).store;
    assert EntryOk(s, v) && ChainOk(s, v);
  }

  /** Of all the operations attempted on the same version, claims by different workers included, at
      most one is ever committed. */
  lemma {:induction false} AtMostOneSuccessor(actions: seq<Action>, p: Version, v: Version, u: Version)
    requires var s := Run(Initial(), actions).store;
      v < |s.log| && u < |s.log| && s.log[v].replaced == s.log[u].replaced == Some(p)
    ensures v == u
  {
    ReachableInv(actions);
    SingleWinner(Run(Initial(), actions).store, p, v, u);
  }

  // ---- attempts ----

  predicate IsClaim(op: Op) { op.ClaimBy? }
  predicate IsUnclaim(op: Op) { op.UnclaimBy? }
  predicate IsFailure(op: Op) { op.FailBy? || op.Reap? }

  function Count(ops: seq<Op>, kind: Op -> bool): nat {
    if ops == [] then 0 else Count(ops[..|ops| - 1], kind) + if kind(ops[|ops| - 1]) then 1 else 0
  }

  /** In any run of one task that starts fresh, claims minus unclaims is the attempt count, there are
      at most RetryTimes + 1 claims beyond the unclaimed ones, and the task is DEAD exactly when it
      has failed, by worker or by reaper, RetryTimes + 1 times. */
  lemma {:induction false} AttemptAccounting(t: Task, ops: seq<Op>)
    requires WellFormed(t) && t.state == QUEUED && t.attempted == 0 && HasRoom(t.retryTimes)
    requires AtomicRun(t, ops).Success?
    ensures var u := AtomicRun(t, ops).value;
      && WellFormed(u)
      && SameIdentity(t, u)
      && Count(ops, IsClaim) - Count(ops, IsUnclaim) == u.attempted
      && Count(ops, IsClaim) <= t.retryTimes + 1 + Count(ops, IsUnclaim)
      && Count(ops, IsFailure) == (if u.state in {CLAIMED, DONE} then u.attempted - 1 else u.attempted)
      && (u.state == DEAD <==> Count(ops, IsFailure) == t.retryTimes + 1)
  {
    if ops != [] {
      var front, op := ops[..|ops| - 1], ops[|ops| - 1];
      AttemptAccounting(t, front);
      var u := AtomicRun(t, front).value;
      ApplyKeepsWellFormed(op, u);
      ApplySucceedsExactlyWhen(op, u);
      if IsFailure(op) { FailureKillsExactlyAtLastAttempt(op, u); }
    }
  }

  /** The same accounting, for everything that any run of the store ever holds. */
  lemma {:induction false} StoredAttemptAccounting(actions: seq<Action>, v: Version)
    requires v < |Run(Initial(), actions).store.log|
    ensures var s := Run(Initial(), actions).store;
      && Valid(s)
      && var t, ops := TaskAt(s, v), Lineage(s, v);
         && WellFormed(t)
         && Count(ops, IsClaim) - Count(ops, IsUnclaim) == t.attempted
         && Count(ops, IsClaim) <= t.retryTimes + 1 + Count(ops, IsUnclaim)
         && (t.state == DEAD <==> Count(ops, IsFailure) == t.retryTimes + 1)
  {
    ReachableInv(actions);
    var w := Run(Initial(), actions);
    var s := w.store;
    LineageReplays(w, v);
    var o := Origin(s, v);
    assert EntryOk(s, o);
    NewDocumentIsWellFormed(s.log[o].cause.newTask, s.log[v].key.id, s.log[o].cause.at);
    if HasRoom(TaskAt(s, v).retryTimes) { AttemptAccounting(TaskAt(s, o), Lineage(s, v)); }
  }

  // ---- what a commit may follow ----

  /** DONE and DEAD are never left: no write ever replaces such a document. */
  lemma {:induction false} TerminalIsNeverReplaced(actions: seq<Action>, v: Version)
    requires v < |Run(Initial(), actions).store.log|
    ensures var s := Run(Initial(), actions).store;
      s.log[v].replaced.Some? ==>
          s.log[v].replaced.value < |s.log| && s.log[s.log[v].replaced.value].doc.state !in {DONE, DEAD}
  {
    ReachableInv(actions);
    var s := Run(Initial(), actions).store;
    assert EntryOk(s, v) && ChainOk(s, v);
    if s.log[v].replaced.Some? {
      var p := s.log[v].replaced.value;
      assert EntryOk(s, p);
      ApplySucceedsExactlyWhen(s.log[v].cause.op, TaskAt(s, p));
    }
  }

  /** No early run: a committed claim is stamped no earlier than the RunAt of the document it took, and
      a claim that follows a failure comes after the back-off, whose end is bounded in turn. */
  lemma {:induction false} NoEarlyRun(actions: seq<Action>, v: Version)
    requires v < |Run(Initial(), actions).store.log|
    requires var e := Run(Initial(), actions).store.log[v]; e.cause.By? && e.cause.op.ClaimBy?
    ensures var s := Run(Initial(), actions).store;
      && s.log[v].replaced.Some?
      && s.log[v].replaced.value < |s.log|
      && var before, at := TaskAt(s, s.log[v].replaced.value), s.log[v].cause.op.at;
         && TaskAt(s, v).lastClaimed.Some? && TaskAt(s, v).lastClaimed.value.claimedAt == at
         && before.state in {QUEUED, FAILED}
         && before.runAt <= at
         && (before.state == FAILED ==>
               && before.lastClaimed.Some? && before.lastClaimed.value.result.Some?
               && var failedAt, r := before.lastClaimed.value.result.value.at, before.attempted - 1;
                  && failedAt + (11 + r) * SECOND <= at
                  && before.runAt <= failedAt + (19 + r + 29 * (r + 1)) * SECOND)
  {
    ReachableInv(actions);
    var s := Run(Initial(), actions).store;
    assert EntryOk(s, v) && ChainOk(s, v);
    assert EntryOk(s, s.log[v].replaced.value);
  }

  /** The reaper fails a task only if the deadline in the document it replaced, so the one stored at
      that moment, has passed by the reaper's clock reading; that deadline counts from the last report. */
  lemma {:induction false} ReapOnlyPastDeadline(actions: seq<Action>, v: Version)
    requires v < |Run(Initial(), actions).store.log|
    requires var e := Run(Initial(), actions).store.log[v]; e.cause.By? && e.cause.op.Reap?
    ensures var s := Run(Initial(), actions).store;
      && s.log[v].replaced.Some?
      && s.log[v].replaced.value < |s.log|
      && var before, after := TaskAt(s, s.log[v].replaced.value), TaskAt(s, v);
         && before.state == CLAIMED
         && before.lastClaimed.Some?
         && LastHeardOf(before.lastClaimed.value) + before.processingTimeout <= s.log[v].cause.op.at
         && after.state == (if before.attempted == before.retryTimes + 1 then DEAD else FAILED)
         && after.lastClaimed.Some?
         && after.lastClaimed.value.result == Some(Completion(s.log[v].cause.op.at, TIMED_OUT, None))
  {
    ReachableInv(actions);
    var s := Run(Initial(), actions).store;
    assert EntryOk(s, v) && ChainOk(s, v);
    var p := s.log[v].replaced.value;
    assert EntryOk(s, p);
    ApplySucceedsExactlyWhen(s.log[v].cause.op, TaskAt(s, p));
    FailureKillsExactlyAtLastAttempt(s.log[v].cause.op, TaskAt(s, p));
  }

  /** Only the worker that holds the claim reports on it, and report times never go back within it. */
  lemma {:induction false} ReportsMoveForward(actions: seq<Action>, v: Version)
    requires v < |Run(Initial(), actions).store.log|
    requires var e := Run(Initial(), actions).store.log[v]; e.cause.By? && e.cause.op.ReportBy?
    ensures var s := Run(Initial(), actions).store;
      && s.log[v].replaced.Some?
      && s.log[v].replaced.value < |s.log|
      && var before, after := TaskAt(s, s.log[v].replaced.value), TaskAt(s, v);
         && before.state == after.state == CLAIMED
         && before.lastClaimed.Some? && after.lastClaimed.Some?
         && before.lastClaimed.value.workerId == after.lastClaimed.value.workerId == s.log[v].cause.op.worker
         && before.lastClaimed.value.claimedAt == after.lastClaimed.value.claimedAt
         && after.lastClaimed.value.lastReport.Some?
         && (before.lastClaimed.value.lastReport.Some? ==>
               before.lastClaimed.value.lastReport.value.at <= after.lastClaimed.value.lastReport.value.at)
  {
    ReachableInv(actions);
    var s := Run(Initial(), actions).store;
    assert EntryOk(s, v) && ChainOk(s, v);
    var p := s.log[v].replaced.value;
    assert EntryOk(s, p);
    ApplySucceedsExactlyWhen(s.log[v].cause.op, TaskAt(s, p));
  }

  // ---- stale copies ----

  lemma StepKeepsGone(w: World, v: Version, a: Action)
    requires Inv(w) && v < |w.store.log| && !Holds(w.store, w.store.log[v].key, v)
    ensures var w' := Step(w, a);
      v < |w'.store.log| && w'.store.log[v] == w.store.log[v] && !Holds(w'.store, w.store.log[v].key, v)
  {
    hide Inv, Apply, Eligible, NewDocument, ToDomainTask, ToPersistedTask, Archivable;
  }

  /** A version that is no longer the live one never is again. */
  lemma {:induction false} VersionsNeverReturn(w: World, v: Version, actions: seq<Action>)
    requires Inv(w)
    requires v < |w.store.log| && !Holds(w.store, w.store.log[v].key, v)
    ensures var w' := Run(w, actions);
      v < |w'.store.log| && w'.store.log[v] == w.store.log[v] && !Holds(w'.store, w.store.log[v].key, v)
    decreases actions
  {
    if actions != [] {
      hide Inv, Step;
      StepKeepsInv(w, actions[0]);
      StepKeepsGone(w, v, actions[0]);
      VersionsNeverReturn(Step(w, actions[0]), v, actions[1..]);
    }
  }

  /** Anything that commits on a document after it was scanned, a report for one, turns every later
      attempt on the scanned copy, a reap for one, into a no-op. */
  lemma {:induction false} CommitDefeatsStaleAttempt(w: World, v: Version, op: Op, fate: Fate, others: seq<Action>,
                                                     late: Op,
                                                     lateFate: Fate)
    requires Inv(w)
    requires v < |w.store.log| && Step(w, Attempt(v, op, fate)) != w
    ensures var w' := Run(Step(w, Attempt(v, op, fate)), others);
      Step(w', Attempt(v, late, lateFate)) == w'
  {
    var w1 := Step(w, Attempt(v, op, fate));
    StepKeepsInv(w, Attempt(v, op, fate));
    assert w1.store.log[v] == w.store.log[v];
    VersionsNeverReturn(w1, v, others);
  }
}
