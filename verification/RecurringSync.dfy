/**
What each call of the recurring-task manager does to its in-memory map, to the scheduled jobs and to
the store (internal/domain/task/recurring/manager.go), while API users write at the same time.
RecurringManager.dfy holds the manager as it is written and is proved against these functions.
*/
module RecurringSync {
  import opened Wrappers
  import opened VersionedStore
  import opened RecurringStore

  /** Tasks by id: the manager's scheduledTasks, and the definitions that live cron jobs run. */
  type TaskMap = map<RecurringId, RecurringTask>

  datatype View = View(store: RecurringStore, mem: TaskMap, jobs: TaskMap)

  // ---- scheduling a list ----

  /** Schedule is an upsert; an expression that does not parse leaves the id without a job. */
  function ScheduleOne(jobs: TaskMap, t: RecurringTask, parses: string -> bool): TaskMap {
    if parses(t.body.expression) then jobs[t.id := t] else jobs - {t.id}
  }

  function ScheduleAll(jobs: TaskMap, ts: seq<RecurringTask>, parses: string -> bool): TaskMap {
    if ts == [] then jobs
    else ScheduleOne(ScheduleAll(jobs, ts[..|ts| - 1], parses), ts[|ts| - 1], parses)
  }

  /** The tasks for which scheduleAndAddToList adds to its list. */
  function Scheduled(ts: seq<RecurringTask>, parses: string -> bool): seq<RecurringTask> {
    if ts == [] then []
    else
      var t := ts[|ts| - 1];
      Scheduled(ts[..|ts| - 1], parses) + if parses(t.body.expression) then [t] else []
  }

  lemma {:induction false} ScheduledAre(ts: seq<RecurringTask>, parses: string -> bool)
    ensures forall t :: t in Scheduled(ts, parses) <==> t in ts && parses(t.body.expression)
    ensures DistinctIds(ts) ==> DistinctIds(Scheduled(ts, parses))
  {
    if ts != [] {
      var front, t := ts[..|ts| - 1], ts[|ts| - 1];
      ScheduledAre(front, parses);
      assert ts == front + [t];
      if DistinctIds(ts) {
        forall i | 0 <= i < |Scheduled(front, parses)|
          ensures Scheduled(front, parses)[i].id != t.id
        {
          assert Scheduled(front, parses)[i] in front;
        }
      }
    }
  }

  lemma {:induction false} ScheduleAllAt(jobs: TaskMap, ts: seq<RecurringTask>, parses: string -> bool)
    requires DistinctIds(ts)
    ensures var jobs' := ScheduleAll(jobs, ts, parses);
      && (forall t :: t in ts ==>
            if parses(t.body.expression) then t.id in jobs' && jobs'[t.id] == t else t.id !in jobs')
      && (forall id :: id !in IdsOf(ts) ==> (id in jobs' <==> id in jobs) && (id in jobs ==> jobs'[id] == jobs[id]))
  {
    if ts != [] {
      var front, last := ts[..|ts| - 1], ts[|ts| - 1];
      ScheduleAllAt(jobs, front, parses);
      assert ts == front + [last];
      forall t | t in ts && t != last
        ensures t in front && t.id != last.id
      {
        var i :| 0 <= i < |ts| && ts[i] == t;
      }
      assert last in ts;
      assert forall t :: t in front ==> t in ts;
      forall id | id !in IdsOf(ts)
        ensures id !in IdsOf(front) && id != last.id
      {
        assert IdsOf(front) <= IdsOf(ts);
      }
    }
  }

  // ---- marking as loaded ----

  /** What surrounds one MarkLoaded: its clock reading, API writes before each item, each item's fate,
      and whether the call as a whole fails, having taken effect or not. */
  datatype MarkPlan = MarkPlan(at: Time, before: nat -> seq<ApiWrite>, fate: nat -> Fate, fails: bool, tookEffect: bool)

  function Marked(t: RecurringTask, at: Time): RecurringTask { t.(loadedAt := Some(at)) }

  function MarkedAll(ts: seq<RecurringTask>, at: Time): (ms: seq<RecurringTask>)
    ensures |ms| == |ts| && forall i :: 0 <= i < |ts| ==> ms[i] == Marked(ts[i], at)
  {
    seq(|ts|, i requires 0 <= i < |ts| => Marked(ts[i], at))
  }

  function DocOf(t: RecurringTask): RecurringDoc { RecurringDoc(t.body, t.isDeleted, t.loadedAt) }

  /** The bulk request of MarkLoaded, item by item. */
  function MarkItems(s: RecurringStore, ms: seq<RecurringTask>, plan: MarkPlan): (RecurringStore, seq<Reply>) {
    if ms == [] then (s, [])
    else
      var n := |ms| - 1;
      var (s1, replies) := MarkItems(s, ms[..n], plan);
      var (s2, reply) :=
          IndexIf(AfterApiAll(s1, plan.before(n)), ms[n].id, ms[n].version, DocOf(ms[n]), Manager, plan.fate(n));
      (s2, replies + [reply])
  }

  /** The four lists of a MultiUpdateResult; successes carry their new version. */
  datatype Group = Successes | VersionConflicts | NotFounds | Others

  function GroupOf(reply: Reply): Group {
    match reply
    case Committed(_) => Successes
    case Missing => NotFounds
    case Conflict => VersionConflicts
    case Errored => Others
  }

  function Updated(t: RecurringTask, reply: Reply): RecurringTask {
    if reply.Committed? then t.(version := reply.version) else t
  }

  function Select(ms: seq<RecurringTask>, replies: seq<Reply>, g: Group): seq<RecurringTask>
    requires |ms| == |replies|
  {
    if ms == [] then []
    else
      var n := |ms| - 1;
      Select(ms[..n], replies[..n], g) + if GroupOf(replies[n]) == g then [Updated(ms[n], replies[n])] else []
  }

  ghost predicate IsUpdate(ms: seq<RecurringTask>, replies: seq<Reply>, i: int, t: RecurringTask)
    requires |ms| == |replies|
  {
    0 <= i < |ms| && t == Updated(ms[i], replies[i])
  }

  lemma {:induction false} SelectedAre(ms: seq<RecurringTask>, replies: seq<Reply>, g: Group)
    requires |ms| == |replies|
    ensures forall t :: t in Select(ms, replies, g) ==>
              exists i :: IsUpdate(ms, replies, i, t) && GroupOf(replies[i]) == g
    ensures forall i :: 0 <= i < |ms| && GroupOf(replies[i]) == g ==>
              Updated(ms[i], replies[i]) in Select(ms, replies, g)
  {
    if ms != [] {
      var n := |ms| - 1;
      SelectedAre(ms[..n], replies[..n], g);
      forall t | t in Select(ms, replies, g)
        ensures exists i :: IsUpdate(ms, replies, i, t) && GroupOf(replies[i]) == g
      {
        if t in Select(ms[..n], replies[..n], g) {
          var i :| IsUpdate(ms[..n], replies[..n], i, t) && GroupOf(replies[..n][i]) == g;
          assert IsUpdate(ms, replies, i, t);
        } else {
          assert IsUpdate(ms, replies, n, t);
        }
      }
      forall i | 0 <= i < n && GroupOf(replies[i]) == g
        ensures Updated(ms[i], replies[i]) in Select(ms, replies, g)
      {
        assert Updated(ms[..n][i], replies[..n][i]) in Select(ms[..n], replies[..n], g);
      }
    }
  }

  /** Which list an item ends up in, and how: by its reply, with a new version only if it was accepted. */
  lemma {:induction false} ListedByReply(ms: seq<RecurringTask>, replies: seq<Reply>, i: nat, t: RecurringTask)
    requires |ms| == |replies| && DistinctIds(ms) && i < |ms| && t.id == ms[i].id
    ensures t in Select(ms, replies, Successes) <==>
            replies[i].Committed? && t == ms[i].(version := replies[i].version)
    ensures t in Select(ms, replies, VersionConflicts) <==> replies[i] == Conflict && t == ms[i]
    ensures t in Select(ms, replies, NotFounds) <==> replies[i] == Missing && t == ms[i]
    ensures t in Select(ms, replies, Others) <==> replies[i] == Errored && t == ms[i]
  {
    ListedIn(ms, replies, Successes, i, t);
    ListedIn(ms, replies, VersionConflicts, i, t);
    ListedIn(ms, replies, NotFounds, i, t);
    ListedIn(ms, replies, Others, i, t);
  }

  lemma {:induction false} ListedIn(ms: seq<RecurringTask>, replies: seq<Reply>, g: Group, i: nat, t: RecurringTask)
    requires |ms| == |replies| && DistinctIds(ms) && i < |ms| && t.id == ms[i].id
    ensures t in Select(ms, replies, g) <==> GroupOf(replies[i]) == g && t == Updated(ms[i], replies[i])
  {
    SelectedAre(ms, replies, g);
    if t in Select(ms, replies, g) {
      var j :| IsUpdate(ms, replies, j, t) && GroupOf(replies[j]) == g;
      assert ms[j].id == ms[i].id;
    }
  }

  /** Deleted tasks are acknowledged but not remembered. */
  function AddAll(mem: TaskMap, ts: seq<RecurringTask>): TaskMap {
    if ts == [] then mem
    else
      var t, rest := ts[|ts| - 1], AddAll(mem, ts[..|ts| - 1]);
      if t.isDeleted then rest else rest[t.id := t]
  }

  lemma {:induction false} AddAllAt(mem: TaskMap, ts: seq<RecurringTask>, id: RecurringId)
    ensures var mem' := AddAll(mem, ts);
      if exists t :: t in ts && t.id == id && !t.isDeleted
          then id in mem' && mem'[id] in ts && mem'[id].id == id && !mem'[id].isDeleted
      else (id in mem' <==> id in mem) && (id in mem ==> mem'[id] == mem[id])
  {
    if ts != [] {
      var front, last := ts[..|ts| - 1], ts[|ts| - 1];
      AddAllAt(mem, front, id);
      assert ts == front + [last];
    }
  }

  /** What the manager does with the four lists. */
  function Remembered(mem: TaskMap, ms: seq<RecurringTask>, replies: seq<Reply>): TaskMap
    requires |ms| == |replies|
  {
    AddAll(mem - IdsOf(Select(ms, replies, NotFounds)), Kept(ms, replies))
  }

  /** The tasks that go back into memory. */
  function Kept(ms: seq<RecurringTask>, replies: seq<Reply>): seq<RecurringTask>
    requires |ms| == |replies|
  {
    Select(ms, replies, Successes) + Select(ms, replies, VersionConflicts) + Select(ms, replies, Others)
  }

  lemma KeptAre(ms: seq<RecurringTask>, replies: seq<Reply>)
    requires |ms| == |replies|
    ensures forall t :: t in Kept(ms, replies) ==> exists i :: IsUpdate(ms, replies, i, t) && replies[i] != Missing
    ensures forall i :: 0 <= i < |ms| && replies[i] != Missing ==> Updated(ms[i], replies[i]) in Kept(ms, replies)
  {
    SelectedAre(ms, replies, Successes);
    SelectedAre(ms, replies, VersionConflicts);
    SelectedAre(ms, replies, Others);
    forall t | t in Kept(ms, replies)
      ensures exists i :: IsUpdate(ms, replies, i, t) && replies[i] != Missing
    {
      if t in Select(ms, replies, Successes) {
        var i :| IsUpdate(ms, replies, i, t) && GroupOf(replies[i]) == Successes;
      } else if t in Select(ms, replies, VersionConflicts) {
        var i :| IsUpdate(ms, replies, i, t) && GroupOf(replies[i]) == VersionConflicts;
      } else {
        var i :| IsUpdate(ms, replies, i, t) && GroupOf(replies[i]) == Others;
      }
    }
  }

  /** Afterwards an item's id holds the item, updated, unless it was not found or is deleted. */
  lemma RememberedItem(mem: TaskMap, ms: seq<RecurringTask>, replies: seq<Reply>, i: nat)
    requires |ms| == |replies| && DistinctIds(ms) && i < |ms|
    ensures var mem', id := Remembered(mem, ms, replies), ms[i].id;
      && (replies[i] == Missing ==> id !in mem')
      && (replies[i] != Missing && !ms[i].isDeleted ==> id in mem' && mem'[id] == Updated(ms[i], replies[i]))
      && (replies[i] != Missing && ms[i].isDeleted ==>
          (id in mem' <==> id in mem) && (id in mem ==> mem'[id] == mem[id]))
  {
    var id, kept := ms[i].id, Kept(ms, replies);
    var gone := Select(ms, replies, NotFounds);
    SelectedAre(ms, replies, NotFounds);
    KeptAre(ms, replies);
    AddAllAt(mem - IdsOf(gone), kept, id);
    var item := Updated(ms[i], replies[i]);
    forall t | t in kept && t.id == id
      ensures t == item && replies[i] != Missing
    {
      var j :| IsUpdate(ms, replies, j, t) && replies[j] != Missing;
    }
    forall t | t in gone && t.id == id
      ensures replies[i] == Missing
    {
      var j :| IsUpdate(ms, replies, j, t) && GroupOf(replies[j]) == NotFounds;
    }
    if replies[i] == Missing {
      assert item in gone;
    } else {
      assert item in kept;
    }
  }

  /** Other ids are left alone. */
  lemma RememberedOther(mem: TaskMap, ms: seq<RecurringTask>, replies: seq<Reply>, id: RecurringId)
    requires |ms| == |replies| && id !in IdsOf(ms)
    ensures var mem' := Remembered(mem, ms, replies);
      (id in mem' <==> id in mem) && (id in mem ==> mem'[id] == mem[id])
  {
    SelectedAre(ms, replies, NotFounds);
    KeptAre(ms, replies);
    AddAllAt(mem - IdsOf(Select(ms, replies, NotFounds)), Kept(ms, replies), id);
    forall t | t in Kept(ms, replies)
      ensures t.id != id
    {
      var j :| IsUpdate(ms, replies, j, t) && replies[j] != Missing;
      assert ms[j] in ms;
    }
    forall t | t in Select(ms, replies, NotFounds)
      ensures t.id != id
    {
      var j :| IsUpdate(ms, replies, j, t) && GroupOf(replies[j]) == NotFounds;
      assert ms[j] in ms;
    }
  }

  /** Marking appends to the log, removes nothing, and an accepted item is stored as it was sent. */
  lemma {:induction false} MarkItemsGrow(s: RecurringStore, ms: seq<RecurringTask>, plan: MarkPlan)
    requires StoreOk(s)
    ensures var (s', replies) := MarkItems(s, ms, plan);
      && StoreOk(s')
      && |replies| == |ms|
      && s.log <= s'.log
      && s.live.Keys <= s'.live.Keys
      && (forall i :: 0 <= i < |ms| && replies[i].Committed? ==>
            && replies[i].version < |s'.log|
            && s'.log[replies[i].version].key == ms[i].id
            && s'.log[replies[i].version].doc == DocOf(ms[i]))
  {
    hide Valid, AfterApiAll, DocOf;
    if ms != [] {
      var n := |ms| - 1;
      var (s1, front) := MarkItems(s, ms[..n], plan);
      MarkItemsGrow(s, ms[..n], plan);
      var mid := AfterApiAll(s1, plan.before(n));
      ApiAllOnlyDirties(s1, plan.before(n));
      IndexGrows(mid, ms[n], plan.fate(n));
      var (s', reply) := IndexIf(mid, ms[n].id, ms[n].version, DocOf(ms[n]), Manager, plan.fate(n));
      var replies := front + [reply];
      hide IndexIf, MarkItems;
      forall i | 0 <= i < |ms| && replies[i].Committed?
        ensures replies[i].version < |s'.log|
        ensures s'.log[replies[i].version].key == ms[i].id && s'.log[replies[i].version].doc == DocOf(ms[i])
      {
        if i < n {
          assert front[i] == replies[i] && ms[..n][i] == ms[i];
          assert s1.log[replies[i].version] == mid.log[replies[i].version] == s'.log[replies[i].version];
        }
      }
    }
  }

  lemma IndexGrows(s: RecurringStore, m: RecurringTask, fate: Fate)
    requires StoreOk(s)
    ensures var (s', reply) := IndexIf(s, m.id, m.version, DocOf(m), Manager, fate);
      && StoreOk(s') && s.log <= s'.log && s.live.Keys <= s'.live.Keys
      && (reply.Committed? ==>
            reply.version < |s'.log| && s'.log[reply.version].key == m.id && s'.log[reply.version].doc == DocOf(m))
  {
    PutKeepsValid(s, m.id, DocOf(m), Manager);
    ValidIsOk(IndexIf(s, m.id, m.version, DocOf(m), Manager, fate).0);
  }

  /** An item that is answered with an error was not written. */
  ghost predicate LostNothing(plan: MarkPlan) { forall n :: !plan.fate(n).AckLost? }

  /** What becomes of the document under id: it is as before, and an item made from it was refused
      with an error; or an API write came last; or an item for it was accepted last. */
  ghost predicate MarkOutcome(s: RecurringStore, s': RecurringStore, ms: seq<RecurringTask>, replies: seq<Reply>,
                              id: RecurringId)
    requires |replies| == |ms| && id in s'.live && s'.live[id] < |s'.log|
  {
    || (&& id in s.live && s'.live[id] == s.live[id]
        && forall i :: 0 <= i < |ms| && ms[i].id == id && ms[i].version == s.live[id] ==> replies[i] == Errored)
    || LiveDoc(s', id).loadedAt == None
    || (exists i ::
        0 <= i < |ms| && ms[i].id == id && replies[i] == Committed(s'.live[id]) && LiveDoc(s', id) == DocOf(ms[i]))
  }

  /** One more item, after which the document under id is as it was. */
  lemma ExtendOutcome(s: RecurringStore, s1: RecurringStore, s': RecurringStore, ms: seq<RecurringTask>,
                      front: seq<Reply>, reply: Reply, id: RecurringId)
    requires ms != [] && |front| == |ms| - 1
    requires id in s1.live && s1.live[id] < |s1.log| && MarkOutcome(s, s1, ms[..|ms| - 1], front, id)
    requires id in s'.live && s'.live[id] == s1.live[id] && s1.log <= s'.log
    requires ms[|ms| - 1].id == id && ms[|ms| - 1].version == s1.live[id] ==> reply == Errored
    ensures MarkOutcome(s, s', ms, front + [reply], id)
  {
    var n, replies := |ms| - 1, front + [reply];
    assert LiveDoc(s', id) == LiveDoc(s1, id);
    if LiveDoc(s1, id).loadedAt != None {
      if i :| && 0 <= i < n && ms[..n][i].id == id
              && front[i] == Committed(s1.live[id]) && LiveDoc(s1, id) == DocOf(ms[..n][i]) {
        assert ms[i].id == id && replies[i] == Committed(s'.live[id]);
      } else {
        forall i | 0 <= i < |ms| && ms[i].id == id && ms[i].version == s.live[id]
          ensures replies[i] == Errored
        {
          if i < n { assert ms[..n][i] == ms[i] && front[i] == replies[i]; }
        }
      }
    }
  }

  lemma {:induction false} MarkItemsOutcome(s: RecurringStore, ms: seq<RecurringTask>, plan: MarkPlan, id: RecurringId)
    requires StoreOk(s) && LostNothing(plan)
    requires id in MarkItems(s, ms, plan).0.live
    ensures var (s', replies) := MarkItems(s, ms, plan);
      StoreOk(s') && |replies| == |ms| && MarkOutcome(s, s', ms, replies, id)
  {
    MarkItemsGrow(s, ms, plan);
    if ms != [] {
      var n := |ms| - 1;
      var (s1, front) := MarkItems(s, ms[..n], plan);
      MarkItemsGrow(s, ms[..n], plan);
      var mid := AfterApiAll(s1, plan.before(n));
      ApiAllOnlyDirties(s1, plan.before(n));
      var (s', reply) := IndexIf(mid, ms[n].id, ms[n].version, DocOf(ms[n]), Manager, plan.fate(n));
      IndexOutcome(mid, ms[n].id, ms[n].version, DocOf(ms[n]), Manager, plan.fate(n));
      if id == ms[n].id && reply.Committed? {
        assert (front + [reply])[n] == Committed(s'.live[id]);
      } else {
        assert s'.live[id] == mid.live[id] && mid.log <= s'.log;
        assert LiveDoc(s', id) == LiveDoc(mid, id);
        if id in s1.live && mid.live[id] == s1.live[id] {
          MarkItemsOutcome(s, ms[..n], plan, id);
          ExtendOutcome(s, s1, s', ms, front, reply, id);
        }
      }
    }
  }

  // ---- the manager's calls ----

  /** What surrounds a read: API writes before it, whether it fails, and, for a search of an index that
      has not been refreshed, the versions that it is offered. */
  datatype ReadPlan = ReadPlan(before: seq<ApiWrite>, fails: bool, unrefreshed: Option<seq<Version>>)

  /** What NotLoaded returns; unlike All it does not refresh the index first. */
  function SeenNotLoaded(s: RecurringStore, read: ReadPlan): seq<RecurringTask>
    requires forall id :: id in s.live ==> s.live[id] < |s.log|
  {
    match read.unrefreshed
    case None => NotLoaded(s)
    case Some(candidates) => StaleHits(s, candidates)
  }

  lemma SeenArePast(s: RecurringStore, read: ReadPlan)
    requires StoreOk(s)
    ensures DistinctIds(SeenNotLoaded(s, read)) && PastCopies(s, SeenNotLoaded(s, read))
  {
    match read.unrefreshed
    case None =>
      ListingsAreCurrent(s);
      CurrentIsPast(s, NotLoaded(s));
    case Some(candidates) => StaleHitsArePast(s, candidates);
  }

  datatype Called = Called(view: View, failed: bool)

  /** markAsLoadedAndUpdateScheduledTasksState */
  function MarkAsLoaded(v: View, loaded: seq<RecurringTask>, plan: MarkPlan): Called
    requires StoreOk(v.store)
  {
    if loaded == [] then Called(v, false)
    else
      var ms := MarkedAll(loaded, plan.at);
      MarkItemsGrow(v.store, ms, plan);
      var (s, replies) := MarkItems(v.store, ms, plan);
      if plan.fails then Called(v.(store := if plan.tookEffect then s else AfterApiAll(v.store, plan.before(0))), true)
      else
        Called(View(s, Remembered(v.mem, ms, replies), v.jobs - IdsOf(Select(ms, replies, NotFounds))), false)
  }

  lemma MarkAsLoadedKeepsStoreOk(v: View, loaded: seq<RecurringTask>, plan: MarkPlan)
    requires StoreOk(v.store)
    ensures StoreOk(MarkAsLoaded(v, loaded, plan).view.store)
              && v.store.log <= MarkAsLoaded(v, loaded, plan).view.store.log
  {
    MarkItemsGrow(v.store, MarkedAll(loaded, plan.at), plan);
    ApiAllOnlyDirties(v.store, plan.before(0));
  }

  function StopAll(v: View): View { v.(mem := map[], jobs := v.jobs - v.mem.Keys) }

  function ReadStore(v: View, read: ReadPlan): (v': View)
    requires StoreOk(v.store)
    ensures StoreOk(v'.store) && OnlyDirtied(v.store, v'.store)
  {
    ApiAllOnlyDirties(v.store, read.before);
    v.(store := AfterApiAll(v.store, read.before))
  }

  /** Everything undeleted scheduled. */
  function Rescheduled(v: View, parses: string -> bool): View
    requires StoreOk(v.store)
  {
    v.(jobs := ScheduleAll(v.jobs, All(v.store), parses))
  }

  /** completeReload: the simple specification of what the manager is for. */
  function CompleteReload(v: View, parses: string -> bool, read: ReadPlan, mark: MarkPlan): Called
    requires StoreOk(v.store)
  {
    var v1 := ReadStore(StopAll(v), read);
    if read.fails then Called(v1, true)
    else
      MarkAsLoaded(Rescheduled(v1, parses), Scheduled(All(v1.store), parses), mark)
  }

  function Where(ts: seq<RecurringTask>, deleted: bool): seq<RecurringTask> {
    if ts == [] then []
    else Where(ts[..|ts| - 1], deleted) + if ts[|ts| - 1].isDeleted == deleted then [ts[|ts| - 1]] else []
  }

  lemma {:induction false} WhereAre(ts: seq<RecurringTask>, deleted: bool)
    ensures forall t :: t in Where(ts, deleted) <==> t in ts && t.isDeleted == deleted
    ensures DistinctIds(ts) ==> DistinctIds(Where(ts, deleted))
  {
    if ts != [] {
      var front, t := ts[..|ts| - 1], ts[|ts| - 1];
      WhereAre(front, deleted);
      assert ts == front + [t];
      forall i | 0 <= i < |Where(front, deleted)|
        ensures DistinctIds(ts) ==> Where(front, deleted)[i].id != t.id
      {
        assert Where(front, deleted)[i] in front;
      }
    }
  }

  /** What syncNotLoaded acknowledges. */
  function ToAck(seen: seq<RecurringTask>, parses: string -> bool): seq<RecurringTask> {
    Where(seen, true) + Scheduled(Where(seen, false), parses)
  }

  /** Unseen deletions unscheduled, unseen updates scheduled, neither in memory. */
  function Refreshed(v: View, seen: seq<RecurringTask>, parses: string -> bool): View {
    var deleted, updated := Where(seen, true), Where(seen, false);
    View(v.store, v.mem - IdsOf(deleted) - IdsOf(updated), ScheduleAll(v.jobs - IdsOf(deleted), updated, parses))
  }

  /** syncNotLoaded: only what has changed since it was last seen. */
  function SyncNotLoaded(v: View, parses: string -> bool, read: ReadPlan, mark: MarkPlan): Called
    requires StoreOk(v.store)
  {
    var v1 := ReadStore(v, read);
    if read.fails then Called(v1, true)
    else
      var seen := SeenNotLoaded(v1.store, read);
      MarkAsLoaded(Refreshed(v1, seen, parses), ToAck(seen, parses), mark)
  }

  /** What checkSync finds. */
  datatype Check = Check(notInDataStore: set<RecurringId>, notInMemory: seq<RecurringTask>,
                         versionMismatch: seq<RecurringTask>)

  predicate NeedsResync(c: Check) { c.notInDataStore != {} || c.notInMemory != [] || c.versionMismatch != [] }

  function NotIn(ts: seq<RecurringTask>, mem: TaskMap): seq<RecurringTask> {
    if ts == [] then []
    else NotIn(ts[..|ts| - 1], mem) + if ts[|ts| - 1].id !in mem then [ts[|ts| - 1]] else []
  }

  function Mismatched(ts: seq<RecurringTask>, mem: TaskMap): seq<RecurringTask> {
    if ts == [] then []
    else
      var t := ts[|ts| - 1];
      Mismatched(ts[..|ts| - 1], mem) + if t.id in mem && mem[t.id].version != t.version then [t] else []
  }

  function CheckSync(mem: TaskMap, all: seq<RecurringTask>): Check {
    Check(mem.Keys - IdsOf(all), NotIn(all, mem), Mismatched(all, mem))
  }

  function ToResync(c: Check): seq<RecurringTask> { c.notInMemory + c.versionMismatch }

  lemma {:induction false} ToResyncAre(ts: seq<RecurringTask>, mem: TaskMap)
    ensures forall t :: t in NotIn(ts, mem) <==> t in ts && t.id !in mem
    ensures forall t :: t in Mismatched(ts, mem) <==> t in ts && t.id in mem && mem[t.id].version != t.version
    ensures DistinctIds(ts) ==> DistinctIds(NotIn(ts, mem) + Mismatched(ts, mem))
  {
    if ts != [] {
      var front, t := ts[..|ts| - 1], ts[|ts| - 1];
      ToResyncAre(front, mem);
      assert ts == front + [t];
      if DistinctIds(ts) {
        forall u | u in NotIn(front, mem) || u in Mismatched(front, mem)
          ensures u.id != t.id
        {
          assert u in front;
        }
        var a: seq<RecurringTask>, b: seq<RecurringTask> := NotIn(front, mem), Mismatched(front, mem);
        forall i | 0 <= i < |a + b|
          ensures (a + b)[i].id != t.id
        {
          assert (a + b)[i] in a || (a + b)[i] in b;
        }
        DistinctInsert(a, b, t);
        assert NotIn(ts, mem) + Mismatched(ts, mem) ==
          if t.id !in mem then (a + [t]) + b else if mem[t.id].version != t.version then a + (b + [t]) else a + b;
      }
    }
  }

  lemma DistinctInsert(a: seq<RecurringTask>, b: seq<RecurringTask>, t: RecurringTask)
    requires DistinctIds(a + b)
    requires forall i :: 0 <= i < |a + b| ==> (a + b)[i].id != t.id
    ensures DistinctIds(a + (b + [t])) && DistinctIds((a + [t]) + b)
  {
    var c, d := a + (b + [t]), (a + [t]) + b;
    forall i, j | 0 <= i < j < |c|
      ensures c[i].id != c[j].id
    {
      assert c[i] == (a + b)[i];
      if j < |a + b| { assert c[j] == (a + b)[j]; }
    }
    forall i, j | 0 <= i < j < |d|
      ensures d[i].id != d[j].id
    {
      var i', j' := if i <= |a| then i else i - 1, if j <= |a| then j else j - 1;
      if i != |a| { assert d[i] == (a + b)[i']; }
      if j != |a| { assert d[j] == (a + b)[j']; }
    }
  }

  /** What the store lacks unscheduled, what is out of step scheduled, neither in memory. */
  function Corrected(v: View, c: Check, parses: string -> bool): View {
    var todo := ToResync(c);
    View(v.store, v.mem - c.notInDataStore - IdsOf(todo), ScheduleAll(v.jobs - c.notInDataStore, todo, parses))
  }

  /** The first half of enforceSync: repair what the check found. */
  function Repair(v: View, c: Check, parses: string -> bool, mark: MarkPlan): Called
    requires StoreOk(v.store)
  {
    MarkAsLoaded(Corrected(v, c, parses), Scheduled(ToResync(c), parses), mark)
  }

  /** enforceSync: check, repair, check again, and reload everything if that was not enough. */
  function EnforceSync(v: View, parses: string -> bool, read: ReadPlan, mark: MarkPlan, recheck: ReadPlan,
                       reloadRead: ReadPlan, reloadMark: MarkPlan)
    : Called
    requires StoreOk(v.store)
  {
    var v1 := ReadStore(v, read);
    if read.fails then Called(v1, true)
    else
      var c := CheckSync(v1.mem, All(v1.store));
      if !NeedsResync(c) then Called(v1, false)
      else
        var repaired := Repair(v1, c, parses, mark);
        MarkAsLoadedKeepsStoreOk(Corrected(v1, c, parses), Scheduled(ToResync(c), parses), mark);
        if repaired.failed then repaired
        else
          var v2 := ReadStore(repaired.view, recheck);
          if recheck.fails then Called(v2, true)
          else if NeedsResync(CheckSync(v2.mem, All(v2.store))) then CompleteReload(v2, parses, reloadRead, reloadMark)
          else Called(v2, false)
  }

  /** The two functions that the runner calls, and how much of the manager's life one call sees. */
  datatype Kind = Sync | Enforce

  datatype Call = Call(kind: Kind, isLeader: bool, read: ReadPlan, mark: MarkPlan, recheck: ReadPlan,
                       reloadRead: ReadPlan, reloadMark: MarkPlan)

  /** The manager between calls: whether it was leader at the last one. */
  datatype Managed = Managed(view: View, wasLeader: bool)

  /** recurringFunc */
  function AfterCall(m: Managed, call: Call, parses: string -> bool): (Managed, bool)
    requires StoreOk(m.view.store)
  {
    var c :=
      if !m.wasLeader && call.isLeader then CompleteReload(m.view, parses, call.read, call.mark)
      else if m.wasLeader && call.isLeader then
        (if call.kind == Sync then SyncNotLoaded(m.view, parses, call.read, call.mark)
         else EnforceSync(m.view, parses, call.read, call.mark, call.recheck, call.reloadRead, call.reloadMark))
      else if m.wasLeader then Called(StopAll(m.view), false)
      else Called(m.view, false);
    (Managed(c.view, call.isLeader), c.failed)
  }
}
