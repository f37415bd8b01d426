/**
What the single retry after a version conflict costs (internal/infra/elasticsearch/task/service.go): the
answer of a call compared with that of a loop that would use up the configured number of retries.
*/
module TaskRetries {
  import opened Wrappers
  import opened VersionedStore
  import opened Tasks
  import opened TaskPersistence
  import opened TaskProtocol
  import opened TaskService

  /** One try of a call. Completions and unclaims read the clock anew for each. */
  datatype Try = Try(op: Op, plan: Plan)

  ghost predicate TriesOk(tries: seq<Try>) {
    forall i :: 0 <= i < |tries| ==> PlainOp(tries[i].op)
  }

  /** The world after one try. */
  ghost function AfterTry(w: World, key: Key, t: Try): World
    requires Inv(w) && PlainOp(t.op)
    ensures Inv(AfterTry(w, key, t))
  {
    UpdateOnceIsProtocol(w, key, t.op, t.plan);
    UpdateOnce(w, key, t.op, t.plan).world
  }

  /** The call as it is: its first two tries are all that it may make. */
  ghost function Called(w: World, key: Key, tries: seq<Try>, retryTimes: nat): Updated
    requires Inv(w) && TriesOk(tries) && |tries| >= 2
  {
    UpdateWithRetry(w, key, tries[0].op, tries[0].plan, tries[1].op, tries[1].plan, retryTimes)
  }

  /** The call as the configured number of retries has it: up to that many more tries, each after a conflict. */
  ghost function Configured(w: World, key: Key, tries: seq<Try>, retryTimes: nat): Updated
    requires Inv(w) && TriesOk(tries) && |tries| > retryTimes
    decreases retryTimes
  {
    var first := UpdateOnce(w, key, tries[0].op, tries[0].plan);
    if first.result == Failure(InvalidVersion) && 0 < retryTimes then
      var rest := Configured(AfterTry(w, key, tries[0]), key, tries[1..], retryTimes - 1);
      rest.(commits := first.commits + rest.commits)
    else first
  }

  /** The try is accepted by the task that it reads, and by the time its write is served that version of
      the task is no longer live. */
  ghost predicate LosesRace(w: World, key: Key, t: Try)
    requires Inv(w)
  {
    var read := Run(w, t.plan.beforeRead).store;
    && !t.plan.readFails
    && key in read.live && read.live[key] < |read.log|
    && Apply(t.op, TaskAt(read, read.live[key])).Success?
    && var store := Run(Run(w, t.plan.beforeRead), t.plan.beforeWrite).store;
       && t.plan.fate.Served?
       && !Holds(store, key, read.live[key])
       && (key in store.live || !t.plan.fate.absentIsMissing)
  }

  /** A version conflict is answered exactly to a try that loses a race. */
  lemma ConflictsExactlyWhen(w: World, key: Key, t: Try)
    requires Inv(w)
    ensures UpdateOnce(w, key, t.op, t.plan).result == Failure(InvalidVersion) <==> LosesRace(w, key, t)
  {
    hide Apply, ToDomainTask, ToPersistedTask, Step;
    RunKeepsInv(w, t.plan.beforeRead);
    var read := Run(w, t.plan.beforeRead);
    if key in read.store.live { assert LiveOk(read.store, key); }
    hide Inv, Run;
  }

  /** What a try reads: the live document, and what its transition makes of it. */
  ghost predicate Accepts(w: World, key: Key, t: Try, task: Task)
    requires Inv(w)
  {
    var read := Run(w, t.plan.beforeRead).store;
    && !t.plan.readFails
    && key in read.live && read.live[key] < |read.log|
    && Apply(t.op, TaskAt(read, read.live[key])) == Success(task)
  }

  /** The version that it read, by the time its write is handled. */
  ghost predicate StillLive(w: World, key: Key, t: Try) {
    var read := Run(w, t.plan.beforeRead).store;
    key in read.live && Holds(Run(Run(w, t.plan.beforeRead), t.plan.beforeWrite).store, key, read.live[key])
  }

  /** What each answer of a try means, both ways. */
  lemma {:induction false} AnswersExactlyWhen(w: World, key: Key, t: Try)
    requires Inv(w) && PlainOp(t.op)
    ensures var answer := UpdateOnce(w, key, t.op, t.plan).result;
      var read := Run(w, t.plan.beforeRead).store;
      var gone := key !in Run(Run(w, t.plan.beforeRead), t.plan.beforeWrite).store.live;
      && (forall task :: (answer.Success? && answer.value.task == task <==>
            Accepts(w, key, t, task) && t.plan.fate.Served? && StillLive(w, key, t)))
      && (forall e :: (answer == Failure(Rejected(e)) <==>
            && !t.plan.readFails && key in read.live && read.live[key] < |read.log|
            && Apply(t.op, TaskAt(read, read.live[key])) == Failure(e)))
      && (answer == Failure(NotFound) <==>
            && !t.plan.readFails
            && (|| key !in read.live
                || (&& (exists task :: Accepts(w, key, t, task))
                    && t.plan.fate.Served? && t.plan.fate.absentIsMissing && gone)))
      && (answer == Failure(StoreError) <==>
            t.plan.readFails || (!t.plan.fate.Served? && exists task :: Accepts(w, key, t, task)))
      && answer != Failure(AlreadyExists)
      && (UpdateOnce(w, key, t.op, t.plan).commits == 1 <==>
            (exists task :: Accepts(w, key, t, task)) && StillLive(w, key, t) && !t.plan.fate.Dropped?)
  {
    hide Apply, ToDomainTask, ToPersistedTask, Step;
    RunKeepsInv(w, t.plan.beforeRead);
    var read := Run(w, t.plan.beforeRead);
    if key in read.store.live {
      assert LiveOk(read.store, key);
      var found := Apply(t.op, TaskAt(read.store, read.store.live[key]));
      if !t.plan.readFails && found.Success? { assert Accepts(w, key, t, found.value); }
    }
    hide Inv, Run;
  }

  /** Each of the first n tries, made one after the other, loses a race. */
  ghost predicate AllLose(w: World, key: Key, tries: seq<Try>, n: nat)
    requires Inv(w) && TriesOk(tries) && n <= |tries|
    decreases n
  {
    n > 0 ==> LosesRace(w, key, tries[0]) && AllLose(AfterTry(w, key, tries[0]), key, tries[1..], n - 1)
  }

  lemma {:induction false} ConfiguredConflictsExactlyWhen(w: World, key: Key, tries: seq<Try>, retryTimes: nat)
    requires Inv(w) && TriesOk(tries) && |tries| > retryTimes
    ensures Configured(w, key, tries, retryTimes).result == Failure(InvalidVersion) <==>
            AllLose(w, key, tries, retryTimes + 1)
    decreases retryTimes
  {
    hide Inv, UpdateOnce, LosesRace, AfterTry;
    ConflictsExactlyWhen(w, key, tries[0]);
    if retryTimes > 0 {
      ConfiguredConflictsExactlyWhen(AfterTry(w, key, tries[0]), key, tries[1..], retryTimes - 1);
    } else {
      assert AllLose(AfterTry(w, key, tries[0]), key, tries[1..], 0);
    }
  }

  /** The call answers with a version conflict exactly when every try that it makes loses, and as the
      configured number of retries has it exactly when that number is at most one, or one of its first two
      tries does not lose, or all the others that were due would have lost too. */
  lemma {:induction false} OneRetrySufficesExactlyWhen(w: World, key: Key, tries: seq<Try>, retryTimes: nat)
    requires Inv(w) && TriesOk(tries) && |tries| > retryTimes && |tries| >= 2
    ensures var w1 := AfterTry(w, key, tries[0]);
      var w2 := AfterTry(w1, key, tries[1]);
      var answer, configured := Called(w, key, tries, retryTimes).result, Configured(w, key, tries, retryTimes).result;
      && (answer == Failure(InvalidVersion) <==>
            LosesRace(w, key, tries[0]) && (retryTimes == 0 || LosesRace(w1, key, tries[1])))
      && (retryTimes <= 1 ==> Called(w, key, tries, retryTimes) == Configured(w, key, tries, retryTimes))
      && (answer == configured <==>
            || retryTimes <= 1
            || !LosesRace(w, key, tries[0]) || !LosesRace(w1, key, tries[1])
            || AllLose(w2, key, tries[2..], retryTimes - 1))
  {
    hide Inv, UpdateOnce, LosesRace, AllLose;
    var w1 := AfterTry(w, key, tries[0]);
    ConflictsExactlyWhen(w, key, tries[0]);
    ConflictsExactlyWhen(w1, key, tries[1]);
    if retryTimes > 1 {
      var w2 := AfterTry(w1, key, tries[1]);
      assert tries[1..][1..] == tries[2..] && tries[1..][0] == tries[1];
      ConfiguredConflictsExactlyWhen(w2, key, tries[2..], retryTimes - 2);
    } else if retryTimes == 1 {
      assert tries[1..][0] == tries[1];
    }
  }

  // ---- a witness ----

  /** The world in which a worker has claimed a task. */
  function ClaimedActions(n: NewTask, id: string, worker: string, at: Time): seq<Action> {
    [Create(n, id, at, Served(false)), Attempt(0, ClaimBy(worker, at, at), Served(false))]
  }

  /** A report, before whose write an equal report of the same worker, made from the given version, commits. */
  function Beaten(worker: string, at: Time, version: Version): Try {
    Try(ReportBy(worker, None, at),
        Plan([], false, [Attempt(version, ReportBy(worker, None, at), Served(false))], Served(false)))
  }

  function Unbeaten(worker: string, at: Time): Try {
    Try(ReportBy(worker, None, at), Plan([], false, [], Served(false)))
  }

  /** A worker that reports three times at once, from a world with a task that it has claimed, where two
      retries are configured: the third try of one call would commit, and the call answers with a conflict. */
  lemma SecondRetryWouldCommit(n: NewTask, id: string, worker: string, at: Time) returns (tries: seq<Try>)
    requires HasRoom(n.retryTimes) && n.runAt <= at
    ensures TriesOk(tries) && |tries| == 3
    ensures var w := Run(Initial(), ClaimedActions(n, id, worker, at));
      && Inv(w)
      && Called(w, Key(n.queue, id), tries, 2).result == Failure(InvalidVersion)
      && Configured(w, Key(n.queue, id), tries, 2).result.Success?
  {
    tries := [Beaten(worker, at, 1), Beaten(worker, at, 2), Unbeaten(worker, at)];
    var key := Key(n.queue, id);
    var w := Run(Initial(), ClaimedActions(n, id, worker, at));
    ReachableInv(ClaimedActions(n, id, worker, at));
    var t := ClaimedTask(n, id, worker, at);
    StartsClaimed(n, id, worker, at);
    BeatenLoses(w, key, t, worker, at, 1);
    var w1 := AfterTry(w, key, tries[0]);
    var u := Apply(ReportBy(worker, None, at), t).value;
    BeatenLoses(w1, key, u, worker, at, 2);
    var w2 := AfterTry(w1, key, tries[1]);
    OneRetrySufficesExactlyWhen(w, key, tries, 2);
    QuietUpdateCommits(w2, key, tries[2].op, tries[2].plan);
    ConflictsExactlyWhen(w2, key, tries[2]);
    hide Inv, UpdateOnce, LosesRace, Apply, AfterTry;
    ConflictsExactlyWhen(w, key, tries[0]);
    ConflictsExactlyWhen(w1, key, tries[1]);
    assert tries[1..][1..] == tries[2..] && tries[1..][0] == tries[1] && tries[2..][0] == tries[2];
  }

  /** A claimed task of the worker is live under key at the given, latest, version. */
  ghost predicate ReportableAt(w: World, key: Key, t: Task, worker: string, at: Time, version: Version) {
    && Holds(w.store, key, version) && |w.store.log| == version + 1
    && w.store.log[version].key == key && TaskAt(w.store, version) == t
    && t.state == CLAIMED && t.lastClaimed.Some? && t.lastClaimed.value.workerId == worker
    && (t.lastClaimed.value.lastReport.Some? ==> t.lastClaimed.value.lastReport.value.at <= at)
  }

  function ClaimedTask(n: NewTask, id: string, worker: string, at: Time): Task
    requires HasRoom(n.retryTimes)
  {
    NewDocumentIsWellFormed(n, id, at);
    Apply(ClaimBy(worker, at, at), ToDomainTask(NewDocument(n, id, at))).value
  }

  lemma StartsClaimed(n: NewTask, id: string, worker: string, at: Time)
    requires HasRoom(n.retryTimes) && n.runAt <= at
    ensures ReportableAt(Run(Initial(), ClaimedActions(n, id, worker, at)), Key(n.queue, id),
                         ClaimedTask(n, id, worker, at), worker, at, 1)
  {
    var actions := ClaimedActions(n, id, worker, at);
    var w1 := Step(Initial(), actions[0]);
    assert w1.store.log[0].doc == NewDocument(n, id, at);
    var w2 := Step(w1, actions[1]);
    PersistThenReload(ClaimedTask(n, id, worker, at));
    assert w2.store.log[1].doc == ToPersistedTask(ClaimedTask(n, id, worker, at));
    assert actions == [actions[0]] + [actions[1]];
    RunConcat(Initial(), [actions[0]], [actions[1]]);
    RunOne(Initial(), actions[0]);
    RunOne(w1, actions[1]);
  }

  /** The report that beats ours commits, and ours loses. */
  lemma BeatenLoses(w: World, key: Key, t: Task, worker: string, at: Time, version: Version)
    requires Inv(w) && ReportableAt(w, key, t, worker, at, version)
    ensures LosesRace(w, key, Beaten(worker, at, version))
    ensures Apply(ReportBy(worker, None, at), t).Success?
    ensures ReportableAt(AfterTry(w, key, Beaten(worker, at, version)), key, Apply(ReportBy(worker, None, at), t).value,
                         worker, at, version + 1)
  {
    var b := Beaten(worker, at, version);
    var a := b.plan.beforeWrite[0];
    var u := Apply(b.op, t).value;
    PersistThenReload(u);
    RunOne(w, a);
    var w' := Step(w, a);
    assert Eligible(a.op, w.store.log[version].doc);
    assert w'.store == Put(w.store, key, ToPersistedTask(u), By(a.op));
    assert !Holds(w'.store, key, version);
    assert Run(w, []) == w;
    assert LosesRace(w, key, b);
    ConflictsExactlyWhen(w, key, b);
    assert AfterTry(w, key, b) == w';
  }
}
