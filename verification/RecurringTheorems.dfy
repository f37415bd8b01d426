/**
What the recurring-task manager guarantees: its map, its cron jobs and the store agree as far as the
failures of a call allow, incremental sync keeps what a full reload establishes, and the enforcer
repairs any drift.
*/
module RecurringTheorems {
  import opened Wrappers
  import opened VersionedStore
  import opened RecurringStore
  import opened RecurringSync
  import opened RecurringListings

  // ---- predicates ----

  /** Everything in memory is scheduled, with the definition in memory. */
  ghost predicate Contained(v: View) { forall id :: id in v.mem ==> id in v.jobs && v.jobs[id].body == v.mem[id].body }

  /** And nothing else is. */
  ghost predicate JobsMatch(v: View) { Contained(v) && v.jobs.Keys == v.mem.Keys }

  /** Memory holds the undeleted document under id at its current version, or nothing for a deleted one. */
  ghost predicate AgreesAt(s: RecurringStore, mem: TaskMap, id: RecurringId)
    requires id in s.live && s.live[id] < |s.log|
  {
    if LiveDoc(s, id).isDeleted then id !in mem
    else id in mem && mem[id].version == s.live[id] && mem[id].body == LiveDoc(s, id).body
  }

  predicate Clean(s: RecurringStore, id: RecurringId)
    requires id in s.live && s.live[id] < |s.log|
  {
    LiveDoc(s, id).loadedAt != None
  }

  /** Memory agrees with every document whose LoadedAt is set. */
  ghost predicate CleanAgrees(v: View) {
    StoreOk(v.store) && forall id :: id in v.store.live && Clean(v.store, id) ==> AgreesAt(v.store, v.mem, id)
  }

  /** Memory holds copies of versions that were once stored, of tasks that still have a document. */
  ghost predicate MemGenuine(v: View) {
    forall id :: id in v.mem ==> GenuineAt(v.store, v.mem[id], id)
  }

  /** Everything in memory has an expression that parses. */
  ghost predicate MemParses(v: View, parses: string -> bool) {
    forall id :: id in v.mem ==> parses(v.mem[id].body.expression)
  }

  ghost predicate GenuineAt(s: RecurringStore, t: RecurringTask, id: RecurringId) {
    && t.id == id && !t.isDeleted && id in s.live
    && t.version < |s.log| && s.log[t.version].key == id
    && s.log[t.version].doc.body == t.body && !s.log[t.version].doc.isDeleted
  }

  /** Only documents that are deleted or whose expression parses have ever been marked. */
  ghost predicate CleanParses(s: RecurringStore, parses: string -> bool) {
    && StoreOk(s)
    && forall id :: id in s.live && Clean(s, id) && !LiveDoc(s, id).isDeleted ==> parses(LiveDoc(s, id).body.expression)
  }

  /** Memory holds what should be running, each at the version in the store. */
  ghost predicate MemoryInStep(v: View, parses: string -> bool) {
    && StoreOk(v.store)
    && v.mem.Keys == Runnable(v.store, parses)
    && forall id :: id in v.mem ==> AgreesAt(v.store, v.mem, id)
  }

  /** And so does the scheduler: each job runs the store's definition, and there is no other. */
  ghost predicate InSync(v: View, parses: string -> bool) {
    && MemoryInStep(v, parses)
    && v.jobs.Keys == v.mem.Keys
    && forall id :: id in v.jobs ==> v.jobs[id].body == LiveDoc(v.store, id).body
  }

  // ---- what marking does to them ----

  lemma {:induction false} NotFoundIds(ms: seq<RecurringTask>, replies: seq<Reply>, i: nat)
    requires |ms| == |replies| && i < |ms| && DistinctIds(ms)
    ensures ms[i].id in IdsOf(Select(ms, replies, NotFounds)) <==> replies[i] == Missing
  {
    SelectedAre(ms, replies, NotFounds);
    forall t | t in Select(ms, replies, NotFounds) && t.id == ms[i].id
      ensures replies[i] == Missing
    {
      var j :| IsUpdate(ms, replies, j, t) && GroupOf(replies[j]) == NotFounds;
    }
    if replies[i] == Missing { assert Updated(ms[i], replies[i]) in Select(ms, replies, NotFounds); }
  }

  lemma {:induction false} NotFoundOther(ms: seq<RecurringTask>, replies: seq<Reply>, id: RecurringId)
    requires |ms| == |replies| && id !in IdsOf(ms)
    ensures id !in IdsOf(Select(ms, replies, NotFounds))
  {
    SelectedAre(ms, replies, NotFounds);
    forall t | t in Select(ms, replies, NotFounds)
      ensures t.id != id
    {
      var j :| IsUpdate(ms, replies, j, t) && GroupOf(replies[j]) == NotFounds;
      assert ms[j] in ms;
    }
  }

  lemma MarkedIds(ts: seq<RecurringTask>, at: Time)
    ensures IdsOf(MarkedAll(ts, at)) == IdsOf(ts)
    ensures DistinctIds(ts) ==> DistinctIds(MarkedAll(ts, at))
  {
    var ms := MarkedAll(ts, at);
    forall id
      ensures id in IdsOf(ms) <==> id in IdsOf(ts)
    {
      if id in IdsOf(ms) {
        var m :| m in ms && m.id == id;
        var i :| 0 <= i < |ms| && ms[i] == m;
        assert ts[i] in ts && ts[i].id == id;
      }
      if id in IdsOf(ts) {
        var t :| t in ts && t.id == id;
        var i :| 0 <= i < |ts| && ts[i] == t;
        assert ms[i] in ms && ms[i].id == id;
      }
    }
  }

  /** The undeleted ids of a list. */
  function Alive(ts: seq<RecurringTask>): set<RecurringId> { set t | t in ts && !t.isDeleted :: t.id }

  /** One id of the list after marking: its job is as before unless its document was not found. */
  lemma MarkedJob(v: View, loaded: seq<RecurringTask>, plan: MarkPlan, i: nat)
    requires StoreOk(v.store) && DistinctIds(loaded) && i < |loaded| && !plan.fails
    ensures var v', id := MarkAsLoaded(v, loaded, plan).view, loaded[i].id;
      && (id in v'.jobs ==> id in v.jobs && v'.jobs[id] == v.jobs[id])
      && (id in v'.mem && !loaded[i].isDeleted ==> v'.mem[id].body == loaded[i].body)
      && (id in v'.mem && loaded[i].isDeleted ==> id in v.mem && v'.mem[id] == v.mem[id])
      && (id in v.jobs && id in v'.mem ==> id in v'.jobs)
      && (!loaded[i].isDeleted && id in v'.jobs ==> id in v'.mem)
      && (loaded[i].isDeleted && id !in v.jobs ==> id !in v'.jobs)
  {
    hide Valid, MarkItems, Remembered, Select, AfterApiAll;
    var ms := MarkedAll(loaded, plan.at);
    MarkedIds(loaded, plan.at);
    MarkItemsGrow(v.store, ms, plan);
    var replies := MarkItems(v.store, ms, plan).1;
    RememberedItem(v.mem, ms, replies, i);
    NotFoundIds(ms, replies, i);
  }

  /** Any other id. */
  lemma UnmarkedJob(v: View, loaded: seq<RecurringTask>, plan: MarkPlan, id: RecurringId)
    requires StoreOk(v.store) && id !in IdsOf(loaded)
    ensures var v' := MarkAsLoaded(v, loaded, plan).view;
      && (id in v'.mem <==> id in v.mem) && (id in v.mem ==> v'.mem[id] == v.mem[id])
      && (id in v'.jobs <==> id in v.jobs) && (id in v.jobs ==> v'.jobs[id] == v.jobs[id])
  {
    hide Valid, MarkItems, Remembered, Select, AfterApiAll;
    if loaded != [] && !plan.fails {
      var ms := MarkedAll(loaded, plan.at);
      MarkedIds(loaded, plan.at);
      MarkItemsGrow(v.store, ms, plan);
      var replies := MarkItems(v.store, ms, plan).1;
      RememberedOther(v.mem, ms, replies, id);
      NotFoundOther(ms, replies, id);
    }
  }

  lemma MarkKeepsContained(v: View, loaded: seq<RecurringTask>, plan: MarkPlan)
    requires StoreOk(v.store) && DistinctIds(loaded) && Contained(v)
    requires forall t :: t in loaded && !t.isDeleted ==> t.id in v.jobs && v.jobs[t.id].body == t.body
    ensures Contained(MarkAsLoaded(v, loaded, plan).view)
  {
    var v' := MarkAsLoaded(v, loaded, plan).view;
    hide Valid, MarkAsLoaded;
    if !plan.fails {
      forall id | id in v'.mem
        ensures id in v'.jobs && v'.jobs[id].body == v'.mem[id].body
      {
        if id in IdsOf(loaded) {
          var i := IndexOf(loaded, id);
          MarkedJob(v, loaded, plan, i);
        } else {
          UnmarkedJob(v, loaded, plan, id);
        }
      }
    } else {
      FailedMarkLeavesJobs(v, loaded, plan);
    }
  }

  lemma FailedMarkLeavesJobs(v: View, loaded: seq<RecurringTask>, plan: MarkPlan)
    requires StoreOk(v.store) && (plan.fails || loaded == [])
    ensures var c := MarkAsLoaded(v, loaded, plan);
      c.view.mem == v.mem && c.view.jobs == v.jobs && (c.failed <==> loaded != [])
  {
  }

  lemma MarkMakesJobsMatch(v: View, loaded: seq<RecurringTask>, plan: MarkPlan)
    requires StoreOk(v.store) && DistinctIds(loaded) && Contained(v) && (plan.fails ==> loaded == [])
    requires v.mem.Keys !! IdsOf(loaded)
    requires forall t :: t in loaded && !t.isDeleted ==> t.id in v.jobs && v.jobs[t.id].body == t.body
    requires v.jobs.Keys == v.mem.Keys + Alive(loaded)
    ensures JobsMatch(MarkAsLoaded(v, loaded, plan).view)
  {
    MarkKeepsContained(v, loaded, plan);
    var v' := MarkAsLoaded(v, loaded, plan).view;
    hide Valid, MarkAsLoaded;
    if loaded == [] {
      FailedMarkLeavesJobs(v, loaded, plan);
    } else {
      forall id | id in v'.jobs
        ensures id in v'.mem
      {
        if id in IdsOf(loaded) {
          var i := IndexOf(loaded, id);
          MarkedJob(v, loaded, plan, i);
          if loaded[i].isDeleted { DeletedIsNotAlive(loaded, i); }
        } else {
          UnmarkedJob(v, loaded, plan, id);
          assert Alive(loaded) <= IdsOf(loaded);
        }
      }
    }
  }

  lemma DeletedIsNotAlive(ts: seq<RecurringTask>, i: nat)
    requires DistinctIds(ts) && i < |ts| && ts[i].isDeleted
    ensures ts[i].id !in Alive(ts)
  {
    forall t | t in ts && t.id == ts[i].id
      ensures t == ts[i]
    {
      var j :| 0 <= j < |ts| && ts[j] == t;
    }
  }

  lemma IndexOf(ts: seq<RecurringTask>, id: RecurringId) returns (i: nat)
    requires id in IdsOf(ts)
    ensures i < |ts| && ts[i].id == id
  {
    var t :| t in ts && t.id == id;
    i :| 0 <= i < |ts| && ts[i] == t;
  }

  /** A copy stays genuine while the log grows and no id goes. */
  lemma GenuineStays(s: RecurringStore, s': RecurringStore, t: RecurringTask, id: RecurringId)
    requires GenuineAt(s, t, id) && s.log <= s'.log && s.live.Keys <= s'.live.Keys
    ensures GenuineAt(s', t, id)
  {
    assert s'.log[t.version] == s.log[t.version];
  }

  /** A copy of what was stored, marked and sent, is genuine with whatever version it comes back with. */
  lemma SentIsGenuine(s: RecurringStore, s': RecurringStore, t: RecurringTask, at: Time, reply: Reply)
    requires t.id in s.live && t.version < |s.log| && t == PastCopy(s, t.version) && !t.isDeleted
    requires s.log <= s'.log && s.live.Keys <= s'.live.Keys
    requires reply.Committed? ==>
               && reply.version < |s'.log| && s'.log[reply.version].key == t.id
               && s'.log[reply.version].doc == DocOf(Marked(t, at))
    ensures GenuineAt(s', Updated(Marked(t, at), reply), t.id)
  {
    assert s'.log[t.version] == s.log[t.version];
  }

  lemma MarkKeepsGenuine(v: View, loaded: seq<RecurringTask>, plan: MarkPlan)
    requires StoreOk(v.store) && DistinctIds(loaded) && MemGenuine(v) && PastCopies(v.store, loaded)
    ensures MemGenuine(MarkAsLoaded(v, loaded, plan).view)
  {
    hide MarkItems, Remembered, Valid, AfterApiAll, IdsOf, GenuineAt, Select;
    var v' := MarkAsLoaded(v, loaded, plan).view;
    var ms := MarkedAll(loaded, plan.at);
    MarkItemsGrow(v.store, ms, plan);
    ApiAllOnlyDirties(v.store, plan.before(0));
    assert v.store.log <= v'.store.log && v.store.live.Keys <= v'.store.live.Keys;
    forall id | id in v'.mem
      ensures GenuineAt(v'.store, v'.mem[id], id)
    {
      if loaded == [] || plan.fails {
        GenuineStays(v.store, v'.store, v.mem[id], id);
      } else {
        MarkKeepsGenuineAt(v, loaded, plan, id);
      }
    }
  }

  lemma MarkKeepsGenuineAt(v: View, loaded: seq<RecurringTask>, plan: MarkPlan, id: RecurringId)
    requires StoreOk(v.store) && DistinctIds(loaded) && MemGenuine(v) && PastCopies(v.store, loaded)
    requires loaded != [] && !plan.fails && id in MarkAsLoaded(v, loaded, plan).view.mem
    ensures var v' := MarkAsLoaded(v, loaded, plan).view; GenuineAt(v'.store, v'.mem[id], id)
  {
    hide MarkItems, Remembered, Valid, AfterApiAll, GenuineAt, Select;
    var ms := MarkedAll(loaded, plan.at);
    MarkedIds(loaded, plan.at);
    MarkItemsGrow(v.store, ms, plan);
    var (s', replies) := MarkItems(v.store, ms, plan);
    if i :| 0 <= i < |ms| && ms[i].id == id {
      RememberedItem(v.mem, ms, replies, i);
      if ms[i].isDeleted {
        GenuineStays(v.store, s', v.mem[id], id);
      } else {
        assert loaded[i] in loaded;
        SentIsGenuine(v.store, s', loaded[i], plan.at, replies[i]);
      }
    } else {
      assert id !in IdsOf(ms);
      RememberedOther(v.mem, ms, replies, id);
      GenuineStays(v.store, s', v.mem[id], id);
    }
  }

  lemma MarkKeepsMemParses(v: View, loaded: seq<RecurringTask>, plan: MarkPlan, parses: string -> bool)
    requires StoreOk(v.store) && DistinctIds(loaded) && MemParses(v, parses)
    requires forall i :: 0 <= i < |loaded| && !loaded[i].isDeleted ==> parses(loaded[i].body.expression)
    ensures MemParses(MarkAsLoaded(v, loaded, plan).view, parses)
  {
    hide MarkItems, Remembered, Valid, AfterApiAll, Select;
    var ms := MarkedAll(loaded, plan.at);
    MarkedIds(loaded, plan.at);
    MarkItemsGrow(v.store, ms, plan);
    var v' := MarkAsLoaded(v, loaded, plan).view;
    var replies := MarkItems(v.store, ms, plan).1;
    forall id | id in v'.mem
      ensures parses(v'.mem[id].body.expression)
    {
      if loaded != [] && !plan.fails {
        if id in IdsOf(ms) {
          var i := IndexOf(ms, id);
          RememberedItem(v.mem, ms, replies, i);
        } else {
          RememberedOther(v.mem, ms, replies, id);
        }
      }
    }
  }

  /** Marking current copies that are not in memory yet makes memory agree with every clean document,
      if it agreed with the clean ones that are not in the list. */
  lemma MarkAgrees(v: View, loaded: seq<RecurringTask>, plan: MarkPlan)
    requires StoreOk(v.store) && DistinctIds(loaded) && CurrentCopies(v.store, loaded)
    requires !plan.fails && LostNothing(plan)
    requires v.mem.Keys !! IdsOf(loaded)
    requires forall id :: id in v.store.live && id !in IdsOf(loaded) && Clean(v.store, id) ==>
               AgreesAt(v.store, v.mem, id)
    ensures CleanAgrees(MarkAsLoaded(v, loaded, plan).view)
  {
    hide MarkItems, Remembered, Valid, AfterApiAll, AgreesAt, Select, Clean, CurrentCopies, DistinctIds;
    if loaded != [] {
      var ms := MarkedAll(loaded, plan.at);
      MarkItemsGrow(v.store, ms, plan);
      var v' := MarkAsLoaded(v, loaded, plan).view;
      forall id | id in v'.store.live && Clean(v'.store, id)
        ensures AgreesAt(v'.store, v'.mem, id)
      {
        MarkAgreesAt(v, loaded, plan, id);
      }
    }
  }

  lemma MarkAgreesAt(v: View, loaded: seq<RecurringTask>, plan: MarkPlan, id: RecurringId)
    requires StoreOk(v.store) && DistinctIds(loaded) && CurrentCopies(v.store, loaded) && loaded != []
    requires !plan.fails && LostNothing(plan)
    requires v.mem.Keys !! IdsOf(loaded)
    requires forall id :: id in v.store.live && id !in IdsOf(loaded) && Clean(v.store, id) ==>
               AgreesAt(v.store, v.mem, id)
    requires var v' := MarkAsLoaded(v, loaded, plan).view;
      id in v'.store.live && v'.store.live[id] < |v'.store.log| && Clean(v'.store, id)
    ensures var v' := MarkAsLoaded(v, loaded, plan).view; AgreesAt(v'.store, v'.mem, id)
  {
    hide MarkItems, Remembered, Valid, AfterApiAll, IdsOf, AgreesAt, Select, Clean;
    var ms := MarkedAll(loaded, plan.at);
    MarkedIds(loaded, plan.at);
    MarkItemsGrow(v.store, ms, plan);
    MarkItemsOutcome(v.store, ms, plan, id);
    var (s', replies) := MarkItems(v.store, ms, plan);
    if id in IdsOf(ms) {
      var i := IndexOf(ms, id);
      RememberedItem(v.mem, ms, replies, i);
      assert id !in v.mem;
      SentAgrees(v.store, s', ms, replies, i, Remembered(v.mem, ms, replies));
    } else {
      RememberedOther(v.mem, ms, replies, id);
      UnsentAgrees(v.store, s', v.mem, ms, replies, id, Remembered(v.mem, ms, replies));
    }
  }

  lemma SentAgrees(s: RecurringStore, s': RecurringStore, ms: seq<RecurringTask>, replies: seq<Reply>, i: nat,
                   mem: TaskMap)
    requires |replies| == |ms| && i < |ms| && DistinctIds(ms)
    requires StoreOk(s) && StoreOk(s') && s.log <= s'.log
    requires var id := ms[i].id;
      && id in s.live && id in s'.live && MarkOutcome(s, s', ms, replies, id) && Clean(s', id)
      && ms[i].version == s.live[id] && ms[i].body == LiveDoc(s, id).body && ms[i].isDeleted == LiveDoc(s, id).isDeleted
      && (replies[i] == Missing || ms[i].isDeleted ==> id !in mem)
      && (replies[i] != Missing && !ms[i].isDeleted ==> id in mem && mem[id] == Updated(ms[i], replies[i]))
    ensures AgreesAt(s', mem, ms[i].id)
  {
    var id := ms[i].id;
    if j :| 0 <= j < |ms| && ms[j].id == id && replies[j] == Committed(s'.live[id]) && LiveDoc(s', id) == DocOf(ms[j]) {
      assert j == i;
    } else {
      assert s'.log[ms[i].version] == s.log[ms[i].version];
    }
  }

  lemma UnsentAgrees(s: RecurringStore, s': RecurringStore, mem: TaskMap, ms: seq<RecurringTask>, replies: seq<Reply>,
                     id: RecurringId, mem': TaskMap)
    requires |replies| == |ms| && id !in IdsOf(ms)
    requires StoreOk(s) && StoreOk(s') && s.log <= s'.log
    requires id in s'.live && MarkOutcome(s, s', ms, replies, id) && Clean(s', id)
    requires id in s.live && Clean(s, id) ==> AgreesAt(s, mem, id)
    requires (id in mem' <==> id in mem) && (id in mem ==> mem'[id] == mem[id])
    ensures AgreesAt(s', mem', id)
  {
    assert forall j :: 0 <= j < |ms| ==> ms[j] in ms && ms[j].id != id;
    assert id in s.live && s'.live[id] == s.live[id];
    assert s'.log[s'.live[id]] == s.log[s'.live[id]];
  }

  // ---- what API writes do to them ----

  lemma ApiKeepsAgreement(v: View, s': RecurringStore, parses: string -> bool)
    requires OnlyDirtied(v.store, s')
    ensures CleanAgrees(v) ==> CleanAgrees(v.(store := s'))
    ensures CleanParses(v.store, parses) ==> CleanParses(s', parses)
    ensures MemGenuine(v) ==> MemGenuine(v.(store := s'))
  {
    hide Valid;
    var s := v.store;
    forall id | id in s'.live && Clean(s', id)
      ensures id in s.live && s'.live[id] == s.live[id] && LiveDoc(s', id) == LiveDoc(s, id)
    {
      assert s'.log[s.live[id]] == s.log[s.live[id]];
    }
    if MemGenuine(v) {
      forall id | id in v.mem
        ensures GenuineAt(s', v.mem[id], id)
      {
        GenuineStays(s, s', v.mem[id], id);
      }
    }
  }

  lemma PutKeepsCleanParses(s: RecurringStore, id: RecurringId, doc: RecurringDoc, parses: string -> bool)
    requires CleanParses(s, parses) && (doc.isDeleted || parses(doc.body.expression))
    ensures CleanParses(Put(s, id, doc, Manager), parses)
  {
    var s' := Put(s, id, doc, Manager);
    PutKeepsValid(s, id, doc, Manager);
    ValidIsOk(s');
    hide Valid;
    forall other | other in s'.live && Clean(s', other) && !LiveDoc(s', other).isDeleted
      ensures parses(LiveDoc(s', other).body.expression)
    {
      if other != id { assert LiveDoc(s', other) == LiveDoc(s, other); }
    }
  }

  lemma CleanParsesIsOk(s: RecurringStore, parses: string -> bool)
    requires CleanParses(s, parses)
    ensures StoreOk(s)
  {
  }

  /** Marking deleted or parsing tasks, by this manager or another. */
  lemma {:induction false} MarkKeepsCleanParses(s: RecurringStore, ms: seq<RecurringTask>, plan: MarkPlan,
                                                parses: string -> bool)
    requires CleanParses(s, parses)
    requires forall i :: 0 <= i < |ms| ==> ms[i].isDeleted || parses(ms[i].body.expression)
    ensures CleanParses(MarkItems(s, ms, plan).0, parses)
  {
    hide Valid, AfterApiAll, CleanParses, StoreOk, OnlyDirtied, MemGenuine, CleanAgrees, Put;
    if ms != [] {
      var n := |ms| - 1;
      var s1 := MarkItems(s, ms[..n], plan).0;
      MarkKeepsCleanParses(s, ms[..n], plan, parses);
      CleanParsesIsOk(s1, parses);
      var mid := AfterApiAll(s1, plan.before(n));
      ApiAllOnlyDirties(s1, plan.before(n));
      ApiKeepsAgreement(View(s1, map[], map[]), mid, parses);
      PutKeepsCleanParses(mid, ms[n].id, DocOf(ms[n]), parses);
    }
  }

  // ---- the moment before marking ----

  /** The list holds past copies, one per id, which are out of memory; those not deleted are scheduled. */
  ghost predicate Ready(v: View, loaded: seq<RecurringTask>) {
    && StoreOk(v.store)
    && DistinctIds(loaded) && PastCopies(v.store, loaded)
    && v.mem.Keys !! IdsOf(loaded)
    && Contained(v)
    && forall t :: t in loaded && !t.isDeleted ==> t.id in v.jobs && v.jobs[t.id] == t
  }

  /** And nothing else is. */
  ghost predicate JobsReady(v: View, loaded: seq<RecurringTask>) { v.jobs.Keys == v.mem.Keys + Alive(loaded) }

  lemma ReadyMark(v: View, loaded: seq<RecurringTask>, plan: MarkPlan)
    requires Ready(v, loaded)
    ensures Contained(MarkAsLoaded(v, loaded, plan).view)
    ensures MemGenuine(v) ==> MemGenuine(MarkAsLoaded(v, loaded, plan).view)
    ensures (plan.fails ==> loaded == []) && JobsReady(v, loaded) ==> JobsMatch(MarkAsLoaded(v, loaded, plan).view)
  {
    hide Valid, MarkAsLoaded, MemGenuine, Contained, PastCopies, DistinctIds, Alive;
    MarkKeepsContained(v, loaded, plan);
    if MemGenuine(v) { MarkKeepsGenuine(v, loaded, plan); }
    if (plan.fails ==> loaded == []) && JobsReady(v, loaded) { MarkMakesJobsMatch(v, loaded, plan); }
  }

  lemma ListsPast(s: RecurringStore, ts: seq<RecurringTask>, ids: set<RecurringId>)
    requires StoreOk(s) && ids <= s.live.Keys && Lists(s, ts, ids)
    ensures DistinctIds(ts) && PastCopies(s, ts) && IdsOf(ts) == ids
    ensures Alive(ts) == ids - Deleted(s, ids)
    ensures forall t :: t in ts ==> t.id in ids && t == CopyOf(s, t.id)
  {
    hide Valid;
    CurrentIsPast(s, ts);
    forall t | t in ts
      ensures t.id in ids && t == CopyOf(s, t.id)
    {
      InList(s, ts, ids, t);
    }
    forall id
      ensures id in Alive(ts) <==> id in ids && !LiveDoc(s, id).isDeleted
    {
      if id in ids { InList(s, ts, ids, CopyOf(s, id)); }
    }
  }

  /** The job of one id once everything undeleted has been scheduled. */
  lemma RescheduledAt(v: View, parses: string -> bool, id: RecurringId)
    requires StoreOk(v.store)
    ensures var jobs := Rescheduled(v, parses).jobs;
      if id in Runnable(v.store, parses) then id in v.store.live && id in jobs && jobs[id] == CopyOf(v.store, id)
      else id in jobs <==> id in v.jobs && id !in UndeletedIds(v.store)
  {
    hide Valid, Lists, ScheduleAll, All;
    ListingsList(v.store);
    ScheduleListed(v.store, v.jobs, All(v.store), UndeletedIds(v.store), parses, id);
  }

  lemma ReloadLists(s: RecurringStore, parses: string -> bool)
    requires StoreOk(s)
    ensures var loaded := Scheduled(All(s), parses);
      && DistinctIds(loaded) && PastCopies(s, loaded) && Lists(s, loaded, Runnable(s, parses))
      && IdsOf(loaded) == Alive(loaded) == Runnable(s, parses)
      && forall t :: t in loaded ==> t.id in Runnable(s, parses) && t.id in s.live && t == CopyOf(s, t.id)
  {
    hide Valid, Lists, PastCopies, DistinctIds, All, Scheduled;
    ListingsList(s);
    ScheduledLists(s, All(s), UndeletedIds(s), parses);
    ListsPast(s, Scheduled(All(s), parses), Runnable(s, parses));
    assert Deleted(s, Runnable(s, parses)) == {};
  }

  lemma ReloadReady(v: View, parses: string -> bool)
    requires StoreOk(v.store) && v.mem == map[]
    ensures Ready(Rescheduled(v, parses), Scheduled(All(v.store), parses))
    ensures Lists(v.store, Scheduled(All(v.store), parses), Runnable(v.store, parses))
    ensures Rescheduled(v, parses).jobs.Keys == Runnable(v.store, parses) + (v.jobs.Keys - UndeletedIds(v.store))
    ensures Alive(Scheduled(All(v.store), parses)) == Runnable(v.store, parses)
  {
    hide Valid, Lists, PastCopies, DistinctIds, All, Scheduled, Alive, ScheduleAll, Runnable, UndeletedIds, IdsOf;
    ReloadLists(v.store, parses);
    forall id
      ensures var jobs := Rescheduled(v, parses).jobs;
        if id in Runnable(v.store, parses) then id in v.store.live && id in jobs && jobs[id] == CopyOf(v.store, id)
        else id in jobs <==> id in v.jobs && id !in UndeletedIds(v.store)
    {
      RescheduledAt(v, parses, id);
    }
  }

  /** What taking in unseen changes does to one id that is in the list, and to one that is not. */
  ghost predicate RefreshedAt(v: View, v': View, seen: seq<RecurringTask>, parses: string -> bool, id: RecurringId) {
    && (id in v'.mem <==> id in v.mem && id !in IdsOf(seen))
    && (id in v'.mem ==> v'.mem[id] == v.mem[id])
    && (id !in IdsOf(seen) ==> (id in v'.jobs <==> id in v.jobs) && (id in v.jobs ==> v'.jobs[id] == v.jobs[id]))
    && (id in IdsOf(seen) ==>
          exists t :: t in seen && t.id == id &&
            if !t.isDeleted && parses(t.body.expression) then id in v'.jobs && v'.jobs[id] == t else id !in v'.jobs)
  }

  lemma RefreshAt(v: View, seen: seq<RecurringTask>, parses: string -> bool, id: RecurringId)
    requires DistinctIds(seen)
    ensures RefreshedAt(v, Refreshed(v, seen, parses), seen, parses, id)
  {
    var deleted, updated := Where(seen, true), Where(seen, false);
    WhereAre(seen, true);
    WhereAre(seen, false);
    SplitIds(seen);
    ScheduleAllAt(v.jobs - IdsOf(deleted), updated, parses);
    hide DistinctIds, ScheduleAll, Where;
    if id in IdsOf(deleted) {
      var t :| t in deleted && t.id == id;
      assert t in seen;
    } else if id in IdsOf(updated) {
      var t :| t in updated && t.id == id;
      assert t in seen;
    }
  }

  lemma {:induction false} SplitIds(seen: seq<RecurringTask>)
    requires DistinctIds(seen)
    ensures IdsOf(seen) == IdsOf(Where(seen, true)) + IdsOf(Where(seen, false))
    ensures IdsOf(Where(seen, true)) !! IdsOf(Where(seen, false))
  {
    WhereAre(seen, true);
    WhereAre(seen, false);
    forall t, u | t in seen && u in seen && t.id == u.id
      ensures t == u
    {
      SameIdSameCopy(seen, t, u);
    }
  }

  lemma SameIdSameCopy(ts: seq<RecurringTask>, t: RecurringTask, u: RecurringTask)
    requires DistinctIds(ts) && t in ts && u in ts && t.id == u.id
    ensures t == u
  {
    var i, j :| 0 <= i < |ts| && 0 <= j < |ts| && ts[i] == t && ts[j] == u;
  }

  /** Exactly what is acknowledged. */
  lemma AckedAre(seen: seq<RecurringTask>, parses: string -> bool)
    requires DistinctIds(seen)
    ensures DistinctIds(ToAck(seen, parses))
    ensures forall t :: t in ToAck(seen, parses) <==> t in seen && (t.isDeleted || parses(t.body.expression))
  {
    var deleted, updated := Where(seen, true), Where(seen, false);
    WhereAre(seen, true);
    WhereAre(seen, false);
    ScheduledAre(updated, parses);
    SplitIds(seen);
    var a, b := deleted, Scheduled(updated, parses);
    forall i, j | 0 <= i < |a| && 0 <= j < |b|
      ensures a[i].id != b[j].id
    {
      assert a[i] in deleted && b[j] in updated;
      assert a[i].id in IdsOf(deleted) && b[j].id in IdsOf(updated);
    }
  }

  lemma SyncReady(v: View, seen: seq<RecurringTask>, parses: string -> bool)
    requires StoreOk(v.store) && Contained(v) && DistinctIds(seen) && PastCopies(v.store, seen)
    ensures Ready(Refreshed(v, seen, parses), ToAck(seen, parses))
    ensures JobsMatch(v) ==> JobsReady(Refreshed(v, seen, parses), ToAck(seen, parses))
  {
    AckedAre(seen, parses);
    forall id
      ensures RefreshedAt(v, Refreshed(v, seen, parses), seen, parses, id)
    {
      RefreshAt(v, seen, parses, id);
    }
    RefreshedIsReady(v, Refreshed(v, seen, parses), seen, ToAck(seen, parses), parses);
  }

  lemma RefreshedIsReady(v: View, v': View, seen: seq<RecurringTask>, acked: seq<RecurringTask>, parses: string -> bool)
    requires StoreOk(v.store) && Contained(v) && v'.store == v.store
    requires DistinctIds(seen) && PastCopies(v.store, seen) && DistinctIds(acked)
    requires forall t :: t in acked <==> t in seen && (t.isDeleted || parses(t.body.expression))
    requires forall id :: RefreshedAt(v, v', seen, parses, id)
    ensures Ready(v', acked)
    ensures JobsMatch(v) ==> JobsReady(v', acked)
  {
    hide Valid;
    assert IdsOf(acked) <= IdsOf(seen);
    forall t | t in acked && !t.isDeleted
      ensures t.id in v'.jobs && v'.jobs[t.id] == t
    {
      assert t.id in IdsOf(seen) && RefreshedAt(v, v', seen, parses, t.id);
      forall u | u in seen && u.id == t.id
        ensures u == t
      {
        SameIdSameCopy(seen, t, u);
      }
    }
    assert Contained(v') by {
      forall id | id in v'.mem
        ensures id in v'.jobs && v'.jobs[id].body == v'.mem[id].body
      {
        assert RefreshedAt(v, v', seen, parses, id);
      }
    }
    assert v'.mem.Keys !! IdsOf(acked) by {
      forall id | id in v'.mem
        ensures id !in IdsOf(acked)
      {
        assert RefreshedAt(v, v', seen, parses, id);
      }
    }
    if JobsMatch(v) {
      forall id | id in v'.jobs
        ensures id in v'.mem || id in Alive(acked)
      {
        assert RefreshedAt(v, v', seen, parses, id);
        assert id in v.jobs.Keys <==> id in v.mem.Keys;
      }
    }
  }

  /** What correcting does to one id. */
  ghost predicate CorrectedAt(v: View, v': View, parses: string -> bool, id: RecurringId)
    requires StoreOk(v.store)
  {
    && (id in v'.mem <==> id in v.mem && id in UndeletedIds(v.store) && id !in OutOfStep(v.store, v.mem))
    && (id in v'.mem ==> v'.mem[id] == v.mem[id])
    && (if id in Parsing(v.store, OutOfStep(v.store, v.mem), parses) then
          id in v'.jobs && v'.jobs[id] == CopyOf(v.store, id)
        else if id in OutOfStep(v.store, v.mem) || (id in v.mem && id !in UndeletedIds(v.store)) then
          id !in v'.jobs
        else
          (id in v'.jobs <==> id in v.jobs) && (id in v.jobs ==> v'.jobs[id] == v.jobs[id]))
  }

  lemma CorrectAt(v: View, parses: string -> bool, id: RecurringId)
    requires StoreOk(v.store)
    ensures CorrectedAt(v, Corrected(v, CheckSync(v.mem, All(v.store)), parses), parses, id)
  {
    hide Valid, CheckSync;
    var s, todo := v.store, OutOfStep(v.store, v.mem);
    var c := CheckSync(v.mem, All(s));
    ToResyncLists(s, v.mem);
    ScheduleListed(s, v.jobs - c.notInDataStore, ToResync(c), todo, parses, id);
  }

  lemma CorrectedStore(v: View, c: Check, parses: string -> bool)
    ensures Corrected(v, c, parses).store == v.store
  {
  }

  lemma RepairReady(v: View, parses: string -> bool)
    requires StoreOk(v.store) && Contained(v)
    ensures var c := CheckSync(v.mem, All(v.store));
      var v', loaded := Corrected(v, c, parses), Scheduled(ToResync(c), parses);
      && Ready(v', loaded)
      && OutOfStep(v.store, v.mem) <= v.store.live.Keys
      && Lists(v.store, loaded, Parsing(v.store, OutOfStep(v.store, v.mem), parses))
      && Alive(loaded) == Parsing(v.store, OutOfStep(v.store, v.mem), parses)
      && (JobsMatch(v) ==> JobsReady(v', loaded))
  {
    hide Valid, Lists, CheckSync, Contained, JobsMatch, JobsReady, Ready, ToResync;
    var s, c, todo := v.store, CheckSync(v.mem, All(v.store)), OutOfStep(v.store, v.mem);
    ToResyncLists(s, v.mem);
    ScheduledLists(s, ToResync(c), todo, parses);
    ListsPast(s, Scheduled(ToResync(c), parses), Parsing(s, todo, parses));
    assert Deleted(s, Parsing(s, todo, parses)) == {};
    forall id
      ensures CorrectedAt(v, Corrected(v, c, parses), parses, id)
    {
      CorrectAt(v, parses, id);
    }
    CorrectedIsReady(v, Corrected(v, c, parses), Scheduled(ToResync(c), parses), parses);
  }

  lemma CorrectedIsReady(v: View, v': View, loaded: seq<RecurringTask>, parses: string -> bool)
    requires StoreOk(v.store) && Contained(v) && v'.store == v.store
    requires DistinctIds(loaded) && PastCopies(v.store, loaded)
    requires IdsOf(loaded) == Alive(loaded) == Parsing(v.store, OutOfStep(v.store, v.mem), parses)
    requires forall t :: t in loaded ==> t.id in v.store.live && t == CopyOf(v.store, t.id)
    requires forall id :: CorrectedAt(v, v', parses, id)
    ensures Ready(v', loaded)
    ensures JobsMatch(v) ==> JobsReady(v', loaded)
  {
    hide Valid, PastCopies, DistinctIds;
    var ids := IdsOf(loaded);
    forall id
      ensures id in v'.mem ==> id in v'.jobs && v'.jobs[id].body == v'.mem[id].body && id !in ids
      ensures id in ids ==> id in v'.jobs && v'.jobs[id] == CopyOf(v.store, id)
      ensures JobsMatch(v) && id in v'.jobs ==> id in v'.mem || id in ids
    {
      assert CorrectedAt(v, v', parses, id);
      assert JobsMatch(v) ==> (id in v.jobs.Keys <==> id in v.mem.Keys);
    }
    forall t | t in loaded
      ensures t.id in ids
    {
    }
  }
}
