/**
The service methods that update stored tasks (internal/infra/elasticsearch/task/service.go), run
against a store that other servers use at the same time.

Wherever other servers may act, the actions they perform arrive as a parameter; so do clock
readings, random numbers and the fate of each request. The Cluster only accepts a write that its
sender can justify as one transition of a copy that was once stored.
*/
module TaskService {
  import opened Wrappers
  import opened Backoff
  import opened VersionedStore
  import opened Tasks
  import opened TaskPersistence
  import opened TaskProtocol
  import opened TaskRecords

  /** A server's copy of a task. */
  datatype Held = Held(task: Task, version: Version)

  datatype ServiceError =
    | NotFound
    | AlreadyExists
    | InvalidVersion
    | Rejected(error: TaskError)
    | StoreError

  /** doc is what the transition op makes of the document written at the given version. */
  ghost predicate Justified(s: TaskStore, key: Key, version: Version, doc: PersistedTask, op: Op) {
    && version < |s.log|
    && s.log[version].key == key
    && Eligible(op, s.log[version].doc)
    && Apply(op, TaskAt(s, version)).Success?
    && doc == ToPersistedTask(Apply(op, TaskAt(s, version)).value)
  }

  /** The log is append-only, whoever acts. */
  lemma {:induction false} LogGrows(w: World, actions: seq<Action>)
    ensures w.store.log <= Run(w, actions).store.log
    decreases actions
  {
    hide Step;
    if actions != [] {
      StepGrows(w, actions[0]);
      LogGrows(Step(w, actions[0]), actions[1..]);
    }
  }

  lemma {:induction false} RunSnoc(w: World, actions: seq<Action>, a: Action)
    ensures Run(w, actions + [a]) == Step(Run(w, actions), a)
  {
    RunConcat(w, actions, [a]);
    RunOne(Run(w, actions), a);
  }

  /** A history followed by further actions is a history. */
  lemma {:induction false} Extend(trace: seq<Action>, more: seq<Action>)
    ensures Run(Initial(), trace + more) == Run(Run(Initial(), trace), more)
    ensures Inv(Run(Initial(), trace + more))
    ensures Run(Initial(), trace).store.log <= Run(Initial(), trace + more).store.log
  {
    RunConcat(Initial(), trace, more);
    ReachableInv(trace + more);
    LogGrows(Run(Initial(), trace), more);
  }

  lemma {:induction false} ExtendOne(trace: seq<Action>, a: Action)
    ensures Run(Initial(), trace + [a]) == Step(Run(Initial(), trace), a)
    ensures Inv(Run(Initial(), trace + [a]))
    ensures Run(Initial(), trace).store.log <= Run(Initial(), trace + [a]).store.log
  {
    Extend(trace, [a]);
    RunOne(Run(Initial(), trace), a);
  }

  lemma JustifiedStays(s: TaskStore, s': TaskStore, key: Key, version: Version, doc: PersistedTask, op: Op)
    requires Justified(s, key, version, doc, op) && s.log <= s'.log
    ensures Justified(s', key, version, doc, op)
  {
    assert s'.log[version] == s.log[version];
  }

  /** Sending a justified write is an attempt of the protocol. */
  lemma JustifiedWriteIsAttempt(w: World, key: Key, version: Version, doc: PersistedTask, op: Op, fate: Fate)
    requires Justified(w.store, key, version, doc, op)
    ensures Step(w, Attempt(version, op, fate)) == w.(store := IndexIf(w.store, key, version, doc, By(op), fate).0)
  {
  }

  lemma DeletingKeepsLog(s: TaskStore, key: Key, version: Version, fate: Fate)
    ensures DeleteIf(s, key, version, fate).0.log == s.log
  {
  }

  /** Versions that one server has been told it wrote, in that order. */
  ghost predicate Rising(versions: seq<Version>, end: nat) {
    && (forall i :: 0 <= i < |versions| ==> versions[i] < end)
    && (forall i, j :: 0 <= i < j < |versions| ==> versions[i] < versions[j])
  }

  lemma RisingStays(versions: seq<Version>, end: nat, end': nat)
    requires Rising(versions, end) && end <= end'
    ensures Rising(versions, end')
  {
  }

  lemma RisingOn(versions: seq<Version>, end: nat)
    requires Rising(versions, end)
    ensures Rising(versions + [end], end + 1)
  {
  }

  class Cluster {
    var world: World

    /** Everything that has happened, and the part of it done by this server. */
    ghost var trace: seq<Action>
    ghost var mine: seq<Action>

    /** The versions under which the store has accepted this server's conditional writes. */
    ghost var accepted: seq<Version>

    ghost predicate Valid()
      reads this
    {
      world == Run(Initial(), trace) && Inv(world) && Rising(accepted, |world.store.log|)
    }

    constructor ()
      ensures Valid() && trace == [] && mine == [] && accepted == []
    {
      world := Initial();
      trace, mine, accepted := [], [], [];
      new;
      ReachableInv([]);
    }

    /** Other servers act. */
    method Interfere(others: seq<Action>)
      requires Valid()
      modifies this
      ensures Valid() && trace == old(trace) + others && mine == old(mine) && accepted == old(accepted)
      ensures world == Run(old(world), others)
      ensures old(world).store.log <= world.store.log
    {
      hide Rising;
      Extend(trace, others);
      RisingStays(accepted, |world.store.log|, |Run(world, others).store.log|);
      world := Run(world, others);
      trace := trace + others;
    }

    /** The index API with if_seq_no and if_primary_term, for one document or one item of a bulk request. */
    method Index(key: Key, version: Version, doc: PersistedTask, op: Op, fate: Fate) returns (reply: Reply)
      requires Valid() && Justified(world.store, key, version, doc, op)
      modifies this
      ensures Valid()
      ensures trace == old(trace) + [Attempt(version, op, fate)] && mine == old(mine) + [Attempt(version, op, fate)]
      ensures accepted == old(accepted) + if reply.Committed? then [reply.version] else []
      ensures (world.store, reply) == IndexIf(old(world).store, key, version, doc, By(op), fate)
      ensures world.archive == old(world).archive
      ensures old(world).store.log <= world.store.log
    {
      hide Rising, Inv, Run, Step, Justified, IndexIf;
      JustifiedWriteIsAttempt(world, key, version, doc, op, fate);
      ExtendOne(trace, Attempt(version, op, fate));
      IndexOutcome(world.store, key, version, doc, By(op), fate);
      var (store, r) := IndexIf(world.store, key, version, doc, By(op), fate);
      RisingOn(accepted, |world.store.log|);
      RisingStays(accepted, |world.store.log|, |store.log|);
      world := world.(store := store);
      reply := r;
      if reply.Committed? { accepted := accepted + [reply.version]; }
      trace, mine := trace + [Attempt(version, op, fate)], mine + [Attempt(version, op, fate)];
    }

    /** The create API. */
    method Create(n: NewTask, id: string, now: Time, fate: Fate) returns (reply: Reply)
      requires Valid()
      modifies this
      ensures Valid() && mine == old(mine) + [TaskProtocol.Create(n, id, now, fate)] && accepted == old(accepted)
      ensures world == Step(old(world), TaskProtocol.Create(n, id, now, fate))
      ensures (world.store, reply) ==
                CreateIf(old(world).store, Key(n.queue, id), NewDocument(n, id, now), Created(n, now), fate)
    {
      hide NewDocument, Rising;
      ghost var a := TaskProtocol.Create(n, id, now, fate);
      ExtendOne(trace, a);
      var (store, r) := CreateIf(world.store, Key(n.queue, id), NewDocument(n, id, now), Created(n, now), fate);
      RisingStays(accepted, |world.store.log|, |store.log|);
      world := world.(store := store);
      reply := r;
      trace, mine := trace + [a], mine + [a];
    }

    /** The pair of bulk items that archives one copy: a versioned delete and an unversioned insert. */
    method DeleteAndArchive(version: Version, completedBefore: Time, deleteFate: Fate, inserted: bool)
      requires Valid() && version < |world.store.log| && Archivable(world.store.log[version].doc, completedBefore)
      modifies this
      ensures Valid() && accepted == old(accepted)
      ensures mine == old(mine) + [Archive(version, completedBefore, deleteFate, inserted)]
      ensures trace == old(trace) + [Archive(version, completedBefore, deleteFate, inserted)]
      ensures world == Step(old(world), Archive(version, completedBefore, deleteFate, inserted))
      ensures old(world).store.log <= world.store.log
    {
      hide Rising, Inv, Run, Archivable;
      ghost var a := Archive(version, completedBefore, deleteFate, inserted);
      ExtendOne(trace, a);
      DeletingKeepsLog(world.store, world.store.log[version].key, version, deleteFate);
      var entry := world.store.log[version];
      var (store, _) := DeleteIf(world.store, entry.key, version, deleteFate);
      assert Step(world, a) == World(store, if inserted then world.archive + multiset{entry.doc} else world.archive);
      hide Step, DeleteIf;
      world := World(store, if inserted then world.archive + multiset{entry.doc} else world.archive);
      trace, mine := trace + [a], mine + [a];
    }
  }

  // ---- read, mutate, write ----

  /** What surrounds one read-mutate-write: the actions of others before the read and before the
      write, whether the read fails, and the fate of the write. */
  datatype Plan = Plan(beforeRead: seq<Action>, readFails: bool, beforeWrite: seq<Action>, fate: Fate)

  /** The world afterwards, the answer, and how many writes of this call took effect. */
  datatype Updated = Updated(world: World, result: Result<Held, ServiceError>, commits: nat)

  function ErrorOf(reply: Reply): ServiceError
    requires !reply.Committed?
  {
    match reply
    case Conflict => InvalidVersion
    case Missing => NotFound
    case Errored => StoreError
  }

  /** The specification of getAndUpdate. */
  ghost function UpdateOnce(w: World, key: Key, op: Op, plan: Plan): Updated
    requires Inv(w)
  {
    RunKeepsInv(w, plan.beforeRead);
    AfterRead(Run(w, plan.beforeRead), key, op, plan)
  }

  ghost function AfterRead(w: World, key: Key, op: Op, plan: Plan): Updated
    requires Inv(w)
  {
    if plan.readFails then Updated(w, Failure(StoreError), 0)
    else if key !in w.store.live then Updated(w, Failure(NotFound), 0)
    else
      assert LiveOk(w.store, key);
      match Apply(op, TaskAt(w.store, w.store.live[key]))
      case Failure(e) => Updated(w, Failure(Rejected(e)), 0)
      case Success(t) => WriteBack(Run(w, plan.beforeWrite), key, w.store.live[key], t, op, plan.fate)
  }

  ghost function WriteBack(w: World, key: Key, version: Version, t: Task, op: Op, fate: Fate): Updated {
    var (store, reply) := IndexIf(w.store, key, version, ToPersistedTask(t), By(op), fate);
    Updated(
      w.(store := store),
      if reply.Committed? then Success(Held(t, reply.version)) else Failure(ErrorOf(reply)),
      |store.log| - |w.store.log|)
  }

  /** The specification of ReportIn, MarkDone, MarkFailed and UnClaim: after a version conflict, and only
      then, one more try, whatever larger retry count is configured. */
  ghost function UpdateWithRetry(w: World, key: Key, op: Op, plan: Plan, op2: Op, plan2: Plan, retryTimes: nat): Updated
    requires Inv(w) && PlainOp(op) && PlainOp(op2)
  {
    var first := UpdateOnce(w, key, op, plan);
    UpdateOnceIsProtocol(w, key, op, plan);
    if first.result == Failure(InvalidVersion) && 0 < retryTimes then
      var second := UpdateOnce(first.world, key, op2, plan2);
      second.(commits := first.commits + second.commits)
    else first
  }

  /** The operations that go through getAndUpdate; claims and reaps act on search hits instead. */
  predicate PlainOp(op: Op) { !op.ClaimBy? && !op.Reap? }

  /** The actions that one read-mutate-write amounts to. */
  ghost function UpdateActions(w: World, key: Key, op: Op, plan: Plan): seq<Action>
    requires Inv(w)
  {
    RunKeepsInv(w, plan.beforeRead);
    var w1 := Run(w, plan.beforeRead);
    if plan.readFails || key !in w1.store.live then plan.beforeRead
    else
      assert LiveOk(w1.store, key);
      if Apply(op, TaskAt(w1.store, w1.store.live[key])).Failure? then plan.beforeRead
      else plan.beforeRead + plan.beforeWrite + [Attempt(w1.store.live[key], op, plan.fate)]
  }

  /** Writing back what a transition makes of a stored copy is one attempt. */
  lemma WriteBackIsAttempt(w: World, key: Key, version: Version, t: Task, op: Op, fate: Fate)
    requires Inv(w) && Justified(w.store, key, version, ToPersistedTask(t), op)
    ensures var u := WriteBack(w, key, version, t, op, fate);
      && u.world == Step(w, Attempt(version, op, fate))
      && Inv(u.world)
      && u.commits <= 1
      && (u.result.Success? ==>
            && u.commits == 1
            && Holds(u.world.store, key, u.result.value.version)
            && u.result.value.version < |u.world.store.log|
            && u.world.store.log[u.result.value.version].cause == By(op)
            && TaskAt(u.world.store, u.result.value.version) == u.result.value.task)
      && (u.result.Failure? && u.result.error != StoreError ==> u.commits == 0)
  {
    hide Inv, Justified, ToPersistedTask, ToDomainTask, Step;
    JustifiedWriteIsAttempt(w, key, version, ToPersistedTask(t), op, fate);
    AttemptKeepsInv(w, version, op, fate);
    IndexOutcome(w.store, key, version, ToPersistedTask(t), By(op), fate);
    PersistThenReload(t);
  }

  /** One read-mutate-write is a run of the protocol with at most one attempt of its own. It commits
      nothing unless it answers with the new task or with an unexplained store error; when it answers
      with a task, that task is the live document at the returned version. */
  lemma {:induction false} UpdateOnceIsProtocol(w: World, key: Key, op: Op, plan: Plan)
    requires Inv(w) && PlainOp(op)
    ensures var u := UpdateOnce(w, key, op, plan);
      && u.world == Run(w, UpdateActions(w, key, op, plan))
      && Inv(u.world)
      && u.commits <= 1
      && (u.result.Success? ==>
            && u.commits == 1
            && Holds(u.world.store, key, u.result.value.version)
            && u.result.value.version < |u.world.store.log|
            && u.world.store.log[u.result.value.version].cause == By(op)
            && TaskAt(u.world.store, u.result.value.version) == u.result.value.task)
      && (u.result.Failure? && u.result.error != StoreError ==> u.commits == 0)
  {
    hide WriteBack, Apply, Step, ToPersistedTask, ToDomainTask;
    RunKeepsInv(w, plan.beforeRead);
    var w1 := Run(w, plan.beforeRead);
    if !plan.readFails && key in w1.store.live {
      assert LiveOk(w1.store, key);
      var v := w1.store.live[key];
      if Apply(op, TaskAt(w1.store, v)).Success? {
        var t, w2 := Apply(op, TaskAt(w1.store, v)).value, Run(w1, plan.beforeWrite);
        LogGrows(w1, plan.beforeWrite);
        RunKeepsInv(w1, plan.beforeWrite);
        hide Inv;
        JustifiedStays(w1.store, w2.store, key, v, ToPersistedTask(t), op);
        WriteBackIsAttempt(w2, key, v, t, op, plan.fate);
        RunConcat(w, plan.beforeRead, plan.beforeWrite);
        RunSnoc(w, plan.beforeRead + plan.beforeWrite, Attempt(v, op, plan.fate));
      }
    }
  }

  /** A whole service call commits at most one write, although it may try twice: a retry follows only a
      conflict, and a conflict means that nothing was written. */
  lemma CallCommitsAtMostOnce(w: World, key: Key, op: Op, plan: Plan, op2: Op, plan2: Plan, retryTimes: nat)
    requires Inv(w) && PlainOp(op) && PlainOp(op2)
    ensures var u := UpdateWithRetry(w, key, op, plan, op2, plan2, retryTimes);
      && Inv(u.world)
      && u.commits <= 1
      && (u.result.Success? ==> u.commits == 1 && Holds(u.world.store, key, u.result.value.version))
      && (u.result.Failure? && u.result.error != StoreError ==> u.commits == 0)
  {
    UpdateOnceIsProtocol(w, key, op, plan);
    var first := UpdateOnce(w, key, op, plan);
    UpdateOnceIsProtocol(first.world, key, op2, plan2);
  }

  /** One lost race does not fail a call: the retry, if nobody interferes with it, commits the transition
      on whatever document is live by then. */
  lemma RetrySurvivesConflict(w: World, key: Key, op: Op, plan: Plan, op2: Op, plan2: Plan, retryTimes: nat)
    requires Inv(w) && PlainOp(op) && PlainOp(op2)
    requires retryTimes > 0 && UpdateOnce(w, key, op, plan).result == Failure(InvalidVersion)
    requires plan2.beforeRead == [] && plan2.beforeWrite == [] && !plan2.readFails && plan2.fate.Served?
    requires var w1 := UpdateOnce(w, key, op, plan).world;
      && key in w1.store.live && w1.store.live[key] < |w1.store.log|
      && Apply(op2, TaskAt(w1.store, w1.store.live[key])).Success?
    ensures var w1 := UpdateOnce(w, key, op, plan).world;
      var u := UpdateWithRetry(w, key, op, plan, op2, plan2, retryTimes);
      && u.commits == 1
      && u.result.Success?
      && u.result.value.task == Apply(op2, TaskAt(w1.store, w1.store.live[key])).value
      && Holds(u.world.store, key, u.result.value.version)
  {
    hide UpdateOnce, Apply, ToPersistedTask, ToDomainTask;
    UpdateOnceIsProtocol(w, key, op, plan);
    var w1 := UpdateOnce(w, key, op, plan).world;
    QuietUpdateCommits(w1, key, op2, plan2);
    CallCommitsAtMostOnce(w, key, op, plan, op2, plan2, retryTimes);
  }

  lemma QuietUpdateCommits(w: World, key: Key, op: Op, plan: Plan)
    requires Inv(w) && PlainOp(op)
    requires plan.beforeRead == [] && plan.beforeWrite == [] && !plan.readFails && plan.fate.Served?
    requires key in w.store.live && w.store.live[key] < |w.store.log|
               && Apply(op, TaskAt(w.store, w.store.live[key])).Success?
    ensures var u := UpdateOnce(w, key, op, plan);
      && u.result.Success? && u.commits == 1
      && u.result.value.task == Apply(op, TaskAt(w.store, w.store.live[key])).value
  {
    hide Apply, ToPersistedTask, ToDomainTask, Step;
  }

  /** What the caller is given back says what the call was told, and when. */
  ghost predicate Says(op: Op, t: Task)
    requires PlainOp(op)
  {
    && t.modifiedAt == op.at
    && t.lastClaimed.Some? && t.lastClaimed.value.workerId == op.worker
    && match op
       case ReportBy(_, data, at) =>
         && t.state == CLAIMED
         && t.lastClaimed.value.lastReport == Some(Report(at, data))
         && t.lastClaimed.value.timesOutAt == at + t.processingTimeout
       case DoneBy(_, at, success) =>
         t.state == DONE && t.lastClaimed.value.result == Some(Completion(at, None, success))
       case FailBy(_, at, failure, _) =>
         t.state in {FAILED, DEAD} && t.lastClaimed.value.result == Some(Completion(at, failure, None))
       case UnclaimBy(_, at) => t.state == QUEUED && t.lastEnqueuedAt == at
  }

  lemma AppliedSays(op: Op, t: Task)
    requires PlainOp(op) && Apply(op, t).Success?
    ensures Says(op, Apply(op, t).value)
  {
    hide WaitSeconds, Wrap;
  }

  lemma UpdatedSays(w: World, key: Key, op: Op, plan: Plan)
    requires Inv(w) && PlainOp(op)
    ensures UpdateOnce(w, key, op, plan).result.Success? ==> Says(op, UpdateOnce(w, key, op, plan).result.value.task)
  {
    hide Apply, Says, ToPersistedTask;
    RunKeepsInv(w, plan.beforeRead);
    var read := Run(w, plan.beforeRead).store;
    if key in read.live {
      assert LiveOk(read, key);
      if Apply(op, TaskAt(read, read.live[key])).Success? { AppliedSays(op, TaskAt(read, read.live[key])); }
    }
  }

  class EsService {
    const cluster: Cluster
    const versionConflictRetryTimes: nat

    constructor (cluster: Cluster, versionConflictRetryTimes: nat)
      ensures this.cluster == cluster && this.versionConflictRetryTimes == versionConflictRetryTimes
    {
      this.cluster := cluster;
      this.versionConflictRetryTimes := versionConflictRetryTimes;
    }

    /** A new task is stored, fresh, exactly if its id is free; the id is generated by the caller's side. */
    method Create(n: NewTask, id: string, now: Time, fate: Fate) returns (r: Result<TaskRecord, ServiceError>)
      requires cluster.Valid()
      modifies cluster
      ensures cluster.Valid() && cluster.world == Step(old(cluster.world), TaskProtocol.Create(n, id, now, fate))
      ensures r.Success? <==> fate.Served? && Key(n.queue, id) !in old(cluster.world).store.live
      ensures r.Success? ==>
        && r.value.Value() == ToDomainTask(NewDocument(n, id, now))
        && WellFormed(r.value.Value()) && StartsAs(r.value.Value(), n, id, now)
        && Holds(cluster.world.store, Key(n.queue, id), r.value.version)
      ensures r == Failure(AlreadyExists) <==> fate.Served? && Key(n.queue, id) in old(cluster.world).store.live
      ensures r == Failure(StoreError) <==> !fate.Served?
    {
      hide NewDocument, ToDomainTask, Run, Step, Inv;
      NewDocumentIsWellFormed(n, id, now);
      NewDocumentStarts(n, id, now);
      var reply := cluster.Create(n, id, now, fate);
      if reply.Committed? {
        var created := new TaskRecord(NewDocument(n, id, now), reply.version);
        return Success(created);
      }
      r := Failure(if reply.Conflict? then AlreadyExists else StoreError);
    }

    /** The closures that the service passes to getAndUpdate. */
    method Mutate(target: TaskRecord, op: Op) returns (err: Option<TaskError>)
      requires PlainOp(op)
      modifies target, target.lastClaimed
      ensures Outcome(Transition(op, old(target.Value())), old(target.Value()), err, target.Value())
      ensures target.modifiedAt == old(target.modifiedAt) && target.version == old(target.version)
      ensures target.lastClaimed == old(target.lastClaimed)
    {
      match op
      case ReportBy(worker, data, at) => err := target.ReportIn(worker, data, at);
      case DoneBy(worker, at, success) => err := target.IntoDone(worker, at, success);
      case FailBy(worker, at, failure, jitter) => err := target.IntoFailed(worker, at, failure, jitter);
      case UnclaimBy(worker, at) => err := target.IntoUnClaimed(worker, at);
    }

    method GetAndUpdate(key: Key, op: Op, plan: Plan) returns (r: Result<TaskRecord, ServiceError>)
      requires cluster.Valid() && PlainOp(op)
      modifies cluster
      ensures cluster.Valid()
      ensures Answers(r, UpdateOnce(old(cluster.world), key, op, plan))
      ensures cluster.world == UpdateOnce(old(cluster.world), key, op, plan).world
    {
      hide Run, Step, Transition, ToDomainTask, ToPersistedTask;
      cluster.Interfere(plan.beforeRead);
      if plan.readFails { return Failure(StoreError); }
      if key !in cluster.world.store.live { return Failure(NotFound); }
      assert LiveOk(cluster.world.store, key);
      var version := cluster.world.store.live[key];
      ghost var read := cluster.world;
      var target := new TaskRecord(cluster.world.store.log[version].doc, version);
      var err := Mutate(target, op);
      if err.Some? { return Failure(Rejected(err.value)); }
      target.modifiedAt := op.at;
      ghost var t := target.Value();
      assert Apply(op, TaskAt(read.store, version)) == Success(t);
      assert Justified(read.store, key, version, ToPersistedTask(t), op);

      cluster.Interfere(plan.beforeWrite);
      JustifiedStays(read.store, cluster.world.store, key, version, ToPersistedTask(t), op);
      assert UpdateOnce(old(cluster.world), key, op, plan) == WriteBack(cluster.world, key, version, t, op, plan.fate);
      var reply := cluster.Index(key, target.version, ToPersistedTask(target.Value()), op, plan.fate);
      if reply.Committed? {
        target.version := reply.version;
        r := Success(target);
      } else {
        r := Failure(ErrorOf(reply));
      }
    }

    method RunUpdate(key: Key, op: Op, plan: Plan, op2: Op, plan2: Plan) returns (r: Result<TaskRecord, ServiceError>)
      requires cluster.Valid() && PlainOp(op) && PlainOp(op2)
      modifies cluster
      ensures cluster.Valid()
      ensures Answers(r, UpdateWithRetry(old(cluster.world), key, op, plan, op2, plan2, versionConflictRetryTimes))
      ensures r.Success? ==> Says(op, r.value.Value()) || Says(op2, r.value.Value())
      ensures cluster.world ==
                UpdateWithRetry(old(cluster.world), key, op, plan, op2, plan2, versionConflictRetryTimes).world
    {
      hide Says;
      UpdateOnceIsProtocol(cluster.world, key, op, plan);
      UpdatedSays(cluster.world, key, op, plan);
      UpdatedSays(UpdateOnce(cluster.world, key, op, plan).world, key, op2, plan2);
      r := GetAndUpdate(key, op, plan);
      var timesRetried := 0;
      if r == Failure(InvalidVersion) && timesRetried < versionConflictRetryTimes {
        timesRetried := timesRetried + 1;
        r := GetAndUpdate(key, op2, plan2);
      }
    }

    /** A retried report keeps the time of the first try. */
    method ReportIn(worker: string, key: Key, data: Option<Json>, now: Time, plan: Plan, plan2: Plan)
      returns (r: Result<TaskRecord, ServiceError>)
      requires cluster.Valid()
      modifies cluster
      ensures cluster.Valid()
      ensures var op := ReportBy(worker, data, now);
        var u := UpdateWithRetry(old(cluster.world), key, op, plan, op, plan2, versionConflictRetryTimes);
        cluster.world == u.world && Answers(r, u) && (r.Success? ==> Says(op, r.value.Value()))
    {
      r := RunUpdate(key, ReportBy(worker, data, now), plan, ReportBy(worker, data, now), plan2);
    }

    /** Completions and unclaims read the clock again for the second try. */
    method MarkDone(worker: string, key: Key, success: Option<Json>, now: Time, now2: Time, plan: Plan, plan2: Plan)
      returns (r: Result<TaskRecord, ServiceError>)
      requires cluster.Valid()
      modifies cluster
      ensures cluster.Valid()
      ensures var u := UpdateWithRetry(old(cluster.world), key, DoneBy(worker, now, success), plan,
                                       DoneBy(worker, now2, success), plan2, versionConflictRetryTimes);
        cluster.world == u.world && Answers(r, u)
      ensures r.Success? ==>
        Says(DoneBy(worker, now, success), r.value.Value()) || Says(DoneBy(worker, now2, success), r.value.Value())
    {
      r := RunUpdate(key, DoneBy(worker, now, success), plan, DoneBy(worker, now2, success), plan2);
    }

    method MarkFailed(worker: string, key: Key, failure: Option<Json>, now: Time, jitter: Jitter, now2: Time,
                      jitter2: Jitter,
                      plan: Plan, plan2: Plan)
      returns (r: Result<TaskRecord, ServiceError>)
      requires cluster.Valid()
      modifies cluster
      ensures cluster.Valid()
      ensures var u := UpdateWithRetry(old(cluster.world), key, FailBy(worker, now, failure, jitter), plan,
                                       FailBy(worker, now2, failure, jitter2), plan2, versionConflictRetryTimes);
        cluster.world == u.world && Answers(r, u)
      ensures r.Success? ==>
        || Says(FailBy(worker, now, failure, jitter), r.value.Value())
        || Says(FailBy(worker, now2, failure, jitter2), r.value.Value())
    {
      r := RunUpdate(key, FailBy(worker, now, failure, jitter), plan, FailBy(worker, now2, failure, jitter2), plan2);
    }

    method UnClaim(worker: string, key: Key, now: Time, now2: Time, plan: Plan, plan2: Plan)
      returns (r: Result<TaskRecord, ServiceError>)
      requires cluster.Valid()
      modifies cluster
      ensures cluster.Valid()
      ensures var u := UpdateWithRetry(old(cluster.world), key, UnclaimBy(worker, now), plan,
                                       UnclaimBy(worker, now2), plan2, versionConflictRetryTimes);
        cluster.world == u.world && Answers(r, u)
      ensures r.Success? ==>
        Says(UnclaimBy(worker, now), r.value.Value()) || Says(UnclaimBy(worker, now2), r.value.Value())
    {
      r := RunUpdate(key, UnclaimBy(worker, now), plan, UnclaimBy(worker, now2), plan2);
    }
  }

  /** The answer to the caller agrees with the specification's. */
  ghost predicate Answers(r: Result<TaskRecord, ServiceError>, u: Updated)
    reads if r.Success? then {r.value} + r.value.Claims() else {}
  {
    match r
    case Success(t) => u.result == Success(Held(t.Value(), t.version))
    case Failure(e) => u.result == Failure(e)
  }
}
