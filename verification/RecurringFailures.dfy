/**
Where the recurring-task manager falls short of its promises: which jobs outlive leadership, and which
failures and searches leave memory in disagreement with documents marked as seen.
*/
module RecurringFailures {
  import opened Wrappers
  import opened VersionedStore
  import opened RecurringStore
  import opened RecurringSync
  import opened RecurringListings
  import opened RecurringTheorems
  import opened RecurringRuns
  import opened RecurringMarking
  import opened RecurringQuiescence

  // ---- jobs that outlive leadership ----

  /** The jobs that are left when leadership is lost: those that memory does not list. */
  function LeftScheduled(v: View): set<RecurringId> { StopAll(v).jobs.Keys }

  lemma UnlistedIsLeft(v: View)
    ensures LeftScheduled(v) == v.jobs.Keys - v.mem.Keys
  {
  }

  /** What marking leaves unlisted: of its list, what is scheduled, if it fails outright, and nothing
      otherwise; of the rest, what was. */
  lemma LeftAfterMark(v: View, loaded: seq<RecurringTask>, plan: MarkPlan)
    requires Ready(v, loaded) && forall t :: t in loaded && t.isDeleted ==> t.id !in v.jobs
    ensures LeftScheduled(MarkAsLoaded(v, loaded, plan).view) ==
            (v.jobs.Keys - v.mem.Keys - IdsOf(loaded)) + (if plan.fails then Alive(loaded) else {})
  {
    hide Valid, Contained, PastCopies, MarkAsLoaded, LeftScheduled;
    var v' := MarkAsLoaded(v, loaded, plan).view;
    UnlistedIsLeft(v');
    forall id
      ensures id in v'.jobs && id !in v'.mem <==>
              if id in IdsOf(loaded) then plan.fails && id in Alive(loaded) else id in v.jobs && id !in v.mem
    {
      LeftAt(v, loaded, plan, id);
    }
    AliveAreListed(loaded);
    hide Ready, IdsOf, Alive;
  }

  lemma LeftAt(v: View, loaded: seq<RecurringTask>, plan: MarkPlan, id: RecurringId)
    requires Ready(v, loaded) && forall t :: t in loaded && t.isDeleted ==> t.id !in v.jobs
    ensures var v' := MarkAsLoaded(v, loaded, plan).view;
      id in v'.jobs && id !in v'.mem <==>
      if id in IdsOf(loaded) then plan.fails && id in Alive(loaded) else id in v.jobs && id !in v.mem
  {
    hide Valid, Contained, PastCopies, MarkAsLoaded;
    if id in IdsOf(loaded) {
      var i := IndexOf(loaded, id);
      NotInMemory(v, loaded, i);
      assert loaded[i] in loaded;
      if loaded[i].isDeleted { DeletedIsNotAlive(loaded, i); }
      if plan.fails {
        FailedMarkLeavesJobs(v, loaded, plan);
      } else {
        MarkedJob(v, loaded, plan, i);
      }
    } else {
      UnmarkedJob(v, loaded, plan, id);
    }
  }

  lemma AliveAreListed(ts: seq<RecurringTask>)
    ensures Alive(ts) <= IdsOf(ts)
  {
  }

  /** After a reload: everything that it scheduled, if its MarkLoaded failed outright; and of what was left
      before, what has no undeleted document. */
  lemma LeftScheduledAfterReload(v: View, parses: string -> bool, read: ReadPlan, mark: MarkPlan)
    requires Sound(v, parses)
    ensures var s := ReadStore(StopAll(v), read).store;
      LeftScheduled(CompleteReload(v, parses, read, mark).view) ==
      if read.fails then LeftScheduled(v)
      else (LeftScheduled(v) - UndeletedIds(s)) + (if mark.fails then Runnable(s, parses) else {})
  {
    hide Valid, CleanParses, MemGenuine, MemParses, MarkAsLoaded, AfterApiAll, Lists, CleanAgrees, Ready, Rescheduled;
    hide LeftScheduled, Contained, Scheduled, All, Runnable, UndeletedIds, PastCopies, DistinctIds, IdsOf, Alive;
    StopKeeps(v, parses);
    UnlistedIsLeft(v);
    var v1 := ReadStore(StopAll(v), read);
    ReadKeeps(StopAll(v), read, parses);
    UnlistedIsLeft(v1);
    if !read.fails {
      ReloadReady(v1, parses);
      ReloadLists(v1.store, parses);
      RescheduledMemory(v1, parses);
      RunnableAreUndeleted(v1.store, parses);
      var v2, loaded := Rescheduled(v1, parses), Scheduled(All(v1.store), parses);
      forall t | t in loaded
        ensures !t.isDeleted
      {
        InUndeleted(v1.store, t.id);
      }
      LeftAfterMark(v2, loaded, mark);
      Regroup(v1.jobs.Keys, UndeletedIds(v1.store), Runnable(v1.store, parses));
    }
  }

  lemma Regroup(jobs: set<RecurringId>, undeleted: set<RecurringId>, runnable: set<RecurringId>)
    requires runnable <= undeleted
    ensures runnable + (jobs - undeleted) - {} - runnable == jobs - undeleted
  {
  }

  lemma RescheduledMemory(v: View, parses: string -> bool)
    requires StoreOk(v.store)
    ensures Rescheduled(v, parses).store == v.store && Rescheduled(v, parses).mem == v.mem
  {
  }

  /** After an incremental sync: everything that it scheduled, if its MarkLoaded failed outright; and of
      what was left before, what it was not shown. */
  lemma LeftScheduledAfterSync(v: View, parses: string -> bool, read: ReadPlan, mark: MarkPlan)
    requires Sound(v, parses)
    ensures var s := ReadStore(v, read).store;
      var seen := SeenNotLoaded(s, read);
      && LeftScheduled(SyncNotLoaded(v, parses, read, mark).view) ==
         (if read.fails then LeftScheduled(v)
          else (LeftScheduled(v) - IdsOf(seen)) + (if mark.fails then Alive(ToAck(seen, parses)) else {}))
      && (read.unrefreshed == None ==>
            && IdsOf(seen) == DirtyIds(s)
            && Alive(ToAck(seen, parses)) == Acked(s, parses) - Deleted(s, Acked(s, parses)))
  {
    hide Valid, CleanParses, MemGenuine, MemParses, MarkAsLoaded, AfterApiAll, Lists, CleanAgrees, LostNothing;
    hide Refreshed, ToAck, SeenNotLoaded, PastCopies, DistinctIds, Alive, Contained, LeftScheduled, Ready, IdsOf, Acked;
    hide DirtyIds;
    var v1 := ReadStore(v, read);
    ReadKeeps(v, read, parses);
    UnlistedIsLeft(v);
    var s, seen := v1.store, SeenNotLoaded(v1.store, read);
    SeenArePast(s, read);
    if read.unrefreshed == None {
      SeenCurrent(s, read);
      SeenAreDirty(s, read);
      AckedLists(s, parses);
      AckedAreLive(s, parses);
      ListsPast(s, ToAck(seen, parses), Acked(s, parses));
    }
    if !read.fails {
      SyncReady(v1, seen, parses);
      AckedAre(seen, parses);
      AckedAreSeen(seen, parses);
      var v2 := Refreshed(v1, seen, parses);
      forall id
        ensures id in IdsOf(seen) && id !in Alive(ToAck(seen, parses)) ==> id !in v2.jobs
        ensures id in IdsOf(seen) ==> id !in v2.mem
        ensures id !in IdsOf(seen) ==> (id in v2.jobs <==> id in v1.jobs) && (id in v2.mem <==> id in v1.mem)
      {
        RefreshedJob(v1, seen, parses, id);
      }
      forall t | t in ToAck(seen, parses) && t.isDeleted
        ensures t.id !in v2.jobs
      {
        NotAlive(ToAck(seen, parses), t);
        MemberIsListed(ToAck(seen, parses), t);
      }
      AliveAreListed(ToAck(seen, parses));
      LeftAfterMark(v2, ToAck(seen, parses), mark);
      assert v2.jobs.Keys - v2.mem.Keys - IdsOf(ToAck(seen, parses)) == LeftScheduled(v) - IdsOf(seen);
      assert SyncNotLoaded(v, parses, read, mark) == MarkAsLoaded(v2, ToAck(seen, parses), mark);
    } else {
      SameLeft(v, v1);
      assert SyncNotLoaded(v, parses, read, mark).view == v1;
    }
  }

  lemma AckedAreLive(s: RecurringStore, parses: string -> bool)
    requires StoreOk(s)
    ensures Acked(s, parses) <= s.live.Keys
  {
  }

  lemma AckedAreSeen(seen: seq<RecurringTask>, parses: string -> bool)
    requires DistinctIds(seen)
    ensures IdsOf(ToAck(seen, parses)) <= IdsOf(seen)
  {
    hide ToAck;
    AckedAre(seen, parses);
  }

  lemma MemberIsListed(ts: seq<RecurringTask>, t: RecurringTask)
    requires t in ts
    ensures t.id in IdsOf(ts)
  {
  }

  lemma NotAlive(ts: seq<RecurringTask>, t: RecurringTask)
    requires DistinctIds(ts) && t in ts && t.isDeleted
    ensures t.id !in Alive(ts)
  {
    var i :| 0 <= i < |ts| && ts[i] == t;
    DeletedIsNotAlive(ts, i);
  }

  /** What taking in unseen changes leaves of one id. */
  lemma RefreshedJob(v: View, seen: seq<RecurringTask>, parses: string -> bool, id: RecurringId)
    requires DistinctIds(seen)
    ensures var v' := Refreshed(v, seen, parses);
      && (id in IdsOf(seen) && id !in Alive(ToAck(seen, parses)) ==> id !in v'.jobs)
      && (id in IdsOf(seen) ==> id !in v'.mem)
      && (id !in IdsOf(seen) ==> (id in v'.jobs <==> id in v.jobs) && (id in v'.mem <==> id in v.mem))
  {
    hide ToAck, DistinctIds;
    RefreshAt(v, seen, parses, id);
    AckedAre(seen, parses);
    hide Refreshed;
  }

  /** After the enforcer: what its repair scheduled, if that MarkLoaded failed outright; what its reload
      leaves, if it goes that far; and of what was left before, what has no undeleted document. */
  lemma LeftScheduledAfterEnforce(v: View, parses: string -> bool, read: ReadPlan, mark: MarkPlan, recheck: ReadPlan,
                                  reloadRead: ReadPlan, reloadMark: MarkPlan)
    requires Sound(v, parses)
    ensures var v1 := ReadStore(v, read);
      var left := LeftScheduled(EnforceSync(v, parses, read, mark, recheck, reloadRead, reloadMark).view);
      OutOfStep(v1.store, v1.mem) <= v1.store.live.Keys &&
      var c, todo := CheckSync(v1.mem, All(v1.store)), Parsing(v1.store, OutOfStep(v1.store, v1.mem), parses);
      var orphans := LeftScheduled(v) - UndeletedIds(v1.store);
      if read.fails || !NeedsResync(c) then left == LeftScheduled(v)
      else if mark.fails && todo != {} then left == orphans + todo
      else
        var repaired := Repair(v1, c, parses, mark).view;
        StoreOk(repaired.store) &&
        var v2 := ReadStore(repaired, recheck);
        if recheck.fails || reloadRead.fails || !NeedsResync(CheckSync(v2.mem, All(v2.store))) then left == orphans
        else
          var s := ReadStore(StopAll(v2), reloadRead).store;
          left == (orphans - UndeletedIds(s)) + (if reloadMark.fails then Runnable(s, parses) else {})
  {
    hide Valid, CleanParses, MemGenuine, MemParses, ReadStore, CleanAgrees, LostNothing, CheckSync, NeedsResync, Repair;
    hide CompleteReload, OutOfStep, Contained, Parsing, LeftScheduled, MarkAsLoaded, Runnable, JobsMatch, UndeletedIds;
    var v1 := ReadStore(v, read);
    ReadKeeps(v, read, parses);
    SameLeft(v, v1);
    OutOfStepRunnable(v1.store, v1.mem, parses);
    var c := CheckSync(v1.mem, All(v1.store));
    if !read.fails && NeedsResync(c) {
      RepairKeeps(v1, parses, mark);
      LeftAfterRepair(v1, parses, mark);
      var repaired := Repair(v1, c, parses, mark);
      if !repaired.failed {
        var v2 := ReadStore(repaired.view, recheck);
        ReadKeeps(repaired.view, recheck, parses);
        SameLeft(repaired.view, v2);
        LeftScheduledAfterReload(v2, parses, reloadRead, reloadMark);
      }
    }
  }

  lemma SameLeft(v: View, v': View)
    requires v'.mem == v.mem && v'.jobs == v.jobs
    ensures LeftScheduled(v') == LeftScheduled(v)
  {
  }

  lemma LeftAfterRepair(v: View, parses: string -> bool, mark: MarkPlan)
    requires Sound(v, parses)
    ensures OutOfStep(v.store, v.mem) <= v.store.live.Keys
    ensures LeftScheduled(Repair(v, CheckSync(v.mem, All(v.store)), parses, mark).view) ==
            (LeftScheduled(v) - UndeletedIds(v.store)) +
            (if mark.fails then Parsing(v.store, OutOfStep(v.store, v.mem), parses) else {})
  {
    hide Valid, CleanParses, MemGenuine, MemParses, CheckSync, Contained, MarkAsLoaded, Lists, Corrected, Scheduled;
    hide ToResync, OutOfStep, Parsing, Alive, DistinctIds, PastCopies, LeftScheduled, Ready, IdsOf, UndeletedIds, All;
    RepairReady(v, parses);
    UnlistedIsLeft(v);
    var c, todo := CheckSync(v.mem, All(v.store)), Parsing(v.store, OutOfStep(v.store, v.mem), parses);
    var v1, loaded := Corrected(v, c, parses), Scheduled(ToResync(c), parses);
    OutOfStepRunnable(v.store, v.mem, parses);
    RunnableAreUndeleted(v.store, parses);
    ListsPast(v.store, loaded, todo);
    CorrectedStore(v, c, parses);
    forall t | t in loaded
      ensures !t.isDeleted
    {
      InUndeleted(v.store, t.id);
    }
    LeftAfterMark(v1, loaded, mark);
    forall id
      ensures id in v1.jobs.Keys - v1.mem.Keys - todo <==> id in LeftScheduled(v) - UndeletedIds(v.store)
    {
      CorrectAt(v, parses, id);
      CorrectedLeft(v, v1, parses, id);
    }
  }

  lemma CorrectedLeft(v: View, v': View, parses: string -> bool, id: RecurringId)
    requires Sound(v, parses) && CorrectedAt(v, v', parses, id)
    requires OutOfStep(v.store, v.mem) <= v.store.live.Keys
    ensures id in v'.jobs && id !in v'.mem && id !in Parsing(v.store, OutOfStep(v.store, v.mem), parses) <==>
            id in v.jobs && id !in v.mem && id !in UndeletedIds(v.store)
  {
    hide Valid, CleanParses, MemGenuine, MemParses;
  }

  // ---- a reload that fails ----

  /** A reload that fails, its MarkLoaded undisturbed, leaves memory empty, and so in agreement with every
      clean document exactly when no undeleted document was clean before it and none of its items was
      written. */
  lemma FailedReloadAgreesExactlyWhen(v: View, parses: string -> bool, read: ReadPlan, mark: MarkPlan)
    requires Sound(v, parses) && Undisturbing(mark)
    ensures var s := ReadStore(StopAll(v), read).store;
      var c, n := CompleteReload(v, parses, read, mark), |Scheduled(All(s), parses)|;
      && (c.failed <==> read.fails || (mark.fails && Runnable(s, parses) != {}))
      && (n == 0 <==> Runnable(s, parses) == {})
      && (c.failed ==> c.view.mem == map[])
      && (c.failed ==>
            (CleanAgrees(c.view) <==>
             && (forall id :: id in UndeletedIds(s) ==> !Clean(s, id))
             && (read.fails || !mark.tookEffect || forall i :: 0 <= i < n ==> mark.fate(i).Dropped?)))
  {
    hide Valid, MemGenuine, MemParses, CleanParses, CleanAgrees, Lists, Scheduled, ScheduleAll, All, MarkItems;
    hide UndeletedIds, ReadStore, Runnable, Ready, Remembered, Select, PastCopies, Alive, DistinctIds, LostNothing;
    hide Contained;
    StopKeeps(v, parses);
    var v1 := ReadStore(StopAll(v), read);
    var s := v1.store;
    ReadKeeps(StopAll(v), read, parses);
    assert mark.before(0) == [];
    ReloadReady(v1, parses);
    var loaded := Scheduled(All(s), parses);
    RunnableAreUndeleted(s, parses);
    UndeletedAreLive(s);
    ListsPast(s, loaded, Runnable(s, parses));
    EmptyList(loaded);
    var c := CompleteReload(v, parses, read, mark);
    if c.failed {
      ReloadKeeps(v, parses, read, mark);
      EmptyAgreesExactlyWhen(c.view);
      if !read.fails && mark.tookEffect {
        var ms := MarkedAll(loaded, mark.at);
        assert c.view.store == MarkItems(s, ms, mark).0;
        WrittenItems(s, loaded, Runnable(s, parses), mark);
      }
    }
  }

  lemma EmptyAgreesExactlyWhen(v: View)
    requires StoreOk(v.store) && v.mem == map[]
    ensures CleanAgrees(v) <==> forall id :: id in UndeletedIds(v.store) ==> !Clean(v.store, id)
  {
    hide Valid;
    if forall id :: id in UndeletedIds(v.store) ==> !Clean(v.store, id) {
      forall id | id in v.store.live && Clean(v.store, id)
        ensures AgreesAt(v.store, v.mem, id)
      {
        assert id !in UndeletedIds(v.store);
      }
    }
  }

  /** What an undisturbed MarkLoaded of undeleted current copies leaves clean. */
  lemma {:induction false} WrittenItems(s: RecurringStore, loaded: seq<RecurringTask>, ids: set<RecurringId>,
                                        mark: MarkPlan)
    requires StoreOk(s) && ids <= UndeletedIds(s) <= s.live.Keys && Lists(s, loaded, ids) && Undisturbing(mark)
    ensures var s' := MarkItems(s, MarkedAll(loaded, mark.at), mark).0;
      && StoreOk(s')
      && ((forall id :: id in UndeletedIds(s') ==> !Clean(s', id)) <==>
            && (forall id :: id in UndeletedIds(s) ==> !Clean(s, id))
            && (forall i :: 0 <= i < |loaded| ==> mark.fate(i).Dropped?))
  {
    hide Valid, MarkItems, UndeletedIds, Lists, Clean, IdsOf;
    var s' := MarkItems(s, MarkedAll(loaded, mark.at), mark).0;
    WrittenEach(s, loaded, ids, mark);
    if forall i :: 0 <= i < |loaded| ==> mark.fate(i).Dropped? {
      forall id | id in s.live
        ensures s'.live[id] == s.live[id]
      {
        if id in IdsOf(loaded) { var i := IndexOf(loaded, id); }
      }
      NothingWritten(s, s');
    } else {
      var i :| 0 <= i < |loaded| && !mark.fate(i).Dropped?;
      assert loaded[i].id in UndeletedIds(s') && Clean(s', loaded[i].id);
    }
  }

  lemma {:induction false} WrittenEach(s: RecurringStore, loaded: seq<RecurringTask>, ids: set<RecurringId>,
                                       mark: MarkPlan)
    requires StoreOk(s) && ids <= UndeletedIds(s) <= s.live.Keys && Lists(s, loaded, ids) && Undisturbing(mark)
    ensures var s' := MarkItems(s, MarkedAll(loaded, mark.at), mark).0;
      && StoreOk(s') && s.log <= s'.log && s'.live.Keys == s.live.Keys
      && (forall id :: id in s.live && id !in IdsOf(loaded) ==> s'.live[id] == s.live[id])
      && (forall i :: 0 <= i < |loaded| ==>
            && loaded[i].id in s.live
            && if mark.fate(i).Dropped? then s'.live[loaded[i].id] == s.live[loaded[i].id]
               else loaded[i].id in UndeletedIds(s') && Clean(s', loaded[i].id))
  {
    hide Valid, MarkItems, UndeletedIds, Lists, AllOutcomes, DistinctIds, PastCopies, Clean, IdsOf;
    var ms := MarkedAll(loaded, mark.at);
    ListsPast(s, loaded, ids);
    MarkedIds(loaded, mark.at);
    forall i | 0 <= i < |ms|
      ensures ms[i].id in s.live && ms[i].id in ids && loaded[i] == CopyOf(s, ms[i].id)
    {
      assert loaded[i] in loaded;
    }
    UndisturbedItems(s, ms, mark);
    var (s', replies) := MarkItems(s, ms, mark);
    forall i | 0 <= i < |ms|
      ensures ms[i].id in s'.live
      ensures if mark.fate(i).Dropped? then s'.live[ms[i].id] == s.live[ms[i].id]
              else ms[i].id in UndeletedIds(s') && Clean(s', ms[i].id)
    {
      OutcomeAt(s, s', ms, replies, mark, i);
      WrittenItem(s, s', loaded[i], ms[i], replies[i], mark.fate(i));
    }
  }

  /** One item made from an undeleted current copy. */
  lemma WrittenItem(s: RecurringStore, s': RecurringStore, t: RecurringTask, m: RecurringTask, reply: Reply, fate: Fate)
    requires StoreOk(s) && StoreOk(s') && t.id in UndeletedIds(s) && t.id in s.live && t.id in s'.live
    requires t == CopyOf(s, t.id) && m.id == t.id && m.version == t.version
               && DocOf(m) == DocOf(t).(loadedAt := m.loadedAt)
    requires m.loadedAt != None && ItemOutcome(s, s', m, reply, fate)
    ensures if fate.Dropped? then s'.live[t.id] == s.live[t.id] else t.id in UndeletedIds(s') && Clean(s', t.id)
  {
    hide Valid;
  }

  lemma NothingWritten(s: RecurringStore, s': RecurringStore)
    requires StoreOk(s) && StoreOk(s') && s.log <= s'.log && s'.live.Keys == s.live.Keys
    requires forall id :: id in s.live ==> s'.live[id] == s.live[id]
    ensures UndeletedIds(s') == UndeletedIds(s) && forall id :: id in UndeletedIds(s) ==> Clean(s', id) == Clean(s, id)
  {
    hide Valid;
    forall id | id in s.live
      ensures LiveDoc(s', id) == LiveDoc(s, id)
    {
      assert s'.log[s.live[id]] == s.log[s.live[id]];
    }
  }

  lemma InUndeleted(s: RecurringStore, id: RecurringId)
    requires StoreOk(s)
    ensures id in UndeletedIds(s) <==> id in s.live && !LiveDoc(s, id).isDeleted
  {
  }

  // ---- a lost answer, a stale read ----

  /** No item of an undeleted task is written with the answer lost. */
  ghost predicate NoneLost(loaded: seq<RecurringTask>, plan: MarkPlan) {
    forall i :: 0 <= i < |loaded| && plan.fate(i).AckLost? ==> loaded[i].isDeleted
  }

  /** Memory agrees with the clean documents outside a list. */
  ghost predicate AgreesOutside(v: View, ids: set<RecurringId>)
    requires StoreOk(v.store)
  {
    forall id :: id in v.store.live && id !in ids && Clean(v.store, id) ==> AgreesAt(v.store, v.mem, id)
  }

  /** One item of current copies, marked while nobody else writes: memory agrees with what becomes of its
      document exactly when it is not written with the answer lost, or the task is deleted. */
  lemma ItemAgreesExactlyWhen(s: RecurringStore, s': RecurringStore, mem: TaskMap, ms: seq<RecurringTask>,
                              replies: seq<Reply>, i: nat, t: RecurringTask, plan: MarkPlan)
    requires StoreOk(s) && StoreOk(s') && s.log <= s'.log
    requires |replies| == |ms| && i < |ms| && DistinctIds(ms) && ms[i] == Marked(t, plan.at)
    requires t.id in s.live && t.id in s'.live && t == CopyOf(s, t.id) && t.id !in mem
    requires ItemOutcome(s, s', ms[i], replies[i], plan.fate(i))
    ensures (Clean(s', t.id) ==> AgreesAt(s', Remembered(mem, ms, replies), t.id)) <==>
            !plan.fate(i).AckLost? || t.isDeleted
  {
    hide Valid, Remembered, DistinctIds;
    RememberedItem(mem, ms, replies, i);
    assert s'.log[s.live[t.id]] == s.log[s.live[t.id]];
  }

  /** Marking a list of current copies while nobody else writes leaves memory in agreement exactly when it
      agreed outside the list, and every item that is written with its answer lost is of a deleted task:
      for any other, memory keeps the version that was replaced. */
  lemma MarkAgreesExactlyWhen(v: View, loaded: seq<RecurringTask>, ids: set<RecurringId>, plan: MarkPlan)
    requires Ready(v, loaded) && ids <= v.store.live.Keys && Lists(v.store, loaded, ids)
    requires Undisturbing(plan) && !plan.fails
    ensures CleanAgrees(MarkAsLoaded(v, loaded, plan).view) <==> AgreesOutside(v, ids) && NoneLost(loaded, plan)
  {
    hide Valid, MarkItems, Select, Remembered, Contained, AllOutcomes, AgreesAt, Clean, PastCopies;
    ListsPast(v.store, loaded, ids);
    var c := MarkAsLoaded(v, loaded, plan);
    if loaded == [] {
      EmptyList(loaded);
    } else {
      var ms := MarkedAll(loaded, plan.at);
      MarkedIds(loaded, plan.at);
      forall i | 0 <= i < |ms|
        ensures ms[i].id in v.store.live
      {
        assert loaded[i] in loaded;
      }
      UndisturbedItems(v.store, ms, plan);
      var (s', replies) := MarkItems(v.store, ms, plan);
      QuietReplies(v.store, s', ms, replies, plan);
      forall i | 0 <= i < |loaded|
        ensures loaded[i].id in s'.live
        ensures (Clean(s', loaded[i].id) ==> AgreesAt(s', c.view.mem, loaded[i].id)) <==>
                !plan.fate(i).AckLost? || loaded[i].isDeleted
      {
        OutcomeAt(v.store, s', ms, replies, plan, i);
        NotInMemory(v, loaded, i);
        assert loaded[i] in loaded;
        ItemAgreesExactlyWhen(v.store, s', v.mem, ms, replies, i, loaded[i], plan);
      }
      forall id | id !in ids && id in v.store.live
        ensures Clean(s', id) == Clean(v.store, id)
        ensures AgreesAt(s', c.view.mem, id) == AgreesAt(v.store, v.mem, id)
      {
        RememberedOther(v.mem, ms, replies, id);
        SameAgreement(v.store, s', v.mem, c.view.mem, id);
      }
      hide DistinctIds, IdsOf, Lists, MarkAsLoaded;
      AgreementSplits(c.view, v, loaded, ids, plan);
    }
  }

  lemma SameAgreement(s: RecurringStore, s': RecurringStore, mem: TaskMap, mem': TaskMap, id: RecurringId)
    requires StoreOk(s) && StoreOk(s') && s.log <= s'.log && id in s.live && id in s'.live && s'.live[id] == s.live[id]
    requires (id in mem' <==> id in mem) && (id in mem ==> mem'[id] == mem[id])
    ensures Clean(s', id) == Clean(s, id) && AgreesAt(s', mem', id) == AgreesAt(s, mem, id)
  {
    hide Valid;
    assert s'.log[s.live[id]] == s.log[s.live[id]];
  }

  lemma AgreementSplits(v': View, v: View, loaded: seq<RecurringTask>, ids: set<RecurringId>, plan: MarkPlan)
    requires StoreOk(v.store) && StoreOk(v'.store) && v'.store.live.Keys == v.store.live.Keys && IdsOf(loaded) == ids
    requires forall i :: 0 <= i < |loaded| ==>
               && loaded[i].id in v'.store.live
               && ((Clean(v'.store, loaded[i].id) ==> AgreesAt(v'.store, v'.mem, loaded[i].id)) <==>
                   !plan.fate(i).AckLost? || loaded[i].isDeleted)
    requires forall id :: id !in ids && id in v.store.live ==>
               && Clean(v'.store, id) == Clean(v.store, id)
               && AgreesAt(v'.store, v'.mem, id) == AgreesAt(v.store, v.mem, id)
    ensures CleanAgrees(v') <==> AgreesOutside(v, ids) && NoneLost(loaded, plan)
  {
    hide Valid, Clean, AgreesAt;
    if CleanAgrees(v') {
      forall id | id in v.store.live && id !in ids && Clean(v.store, id)
        ensures AgreesAt(v.store, v.mem, id)
      {
        assert id in v'.store.live && Clean(v'.store, id);
      }
      forall i | 0 <= i < |loaded| && plan.fate(i).AckLost?
        ensures loaded[i].isDeleted
      {
        assert loaded[i].id in v'.store.live;
      }
    }
    if AgreesOutside(v, ids) && NoneLost(loaded, plan) {
      forall id | id in v'.store.live && Clean(v'.store, id)
        ensures AgreesAt(v'.store, v'.mem, id)
      {
        if id in ids { var i := IndexOf(loaded, id); }
      }
    }
  }

  /** So a reload whose MarkLoaded nobody disturbs leaves agreement exactly when none of its items is written
      with the answer lost. */
  lemma ReloadAgreesExactlyWhen(v: View, parses: string -> bool, read: ReadPlan, mark: MarkPlan)
    requires Sound(v, parses) && !read.fails && !mark.fails && Undisturbing(mark)
    ensures var s := ReadStore(StopAll(v), read).store;
      CleanAgrees(CompleteReload(v, parses, read, mark).view) <==>
      forall i :: 0 <= i < |Scheduled(All(s), parses)| ==> !mark.fate(i).AckLost?
  {
    hide Valid, MarkAsLoaded, ReadStore, Lists, Ready, MemGenuine, MemParses, CleanParses, Contained, CleanAgrees;
    hide AgreesAt, Scheduled, All, Runnable, UndeletedIds, Clean;
    StopKeeps(v, parses);
    var v1 := ReadStore(StopAll(v), read);
    ReadKeeps(StopAll(v), read, parses);
    ReloadReady(v1, parses);
    var v2, loaded := Rescheduled(v1, parses), Scheduled(All(v1.store), parses);
    RescheduledMemory(v1, parses);
    hide Rescheduled;
    EmptyMemory(v1, v2, parses);
    RunnableAreUndeleted(v1.store, parses);
    UndeletedAreLive(v1.store);
    ReloadLists(v1.store, parses);
    forall i | 0 <= i < |loaded|
      ensures !loaded[i].isDeleted
    {
      assert loaded[i] in loaded;
      InUndeleted(v1.store, loaded[i].id);
    }
    MarkAgreesExactlyWhen(v2, loaded, Runnable(v1.store, parses), mark);
  }

  /** And an incremental sync, exactly when there was agreement after its search, and none of its items of
      undeleted tasks is. */
  lemma SyncAgreesDespiteErrors(v: View, parses: string -> bool, read: ReadPlan, mark: MarkPlan)
    requires Sound(v, parses) && !read.fails && read.unrefreshed == None && !mark.fails && Undisturbing(mark)
    ensures var v1 := ReadStore(v, read);
      CleanAgrees(SyncNotLoaded(v, parses, read, mark).view) <==>
      CleanAgrees(v1) && NoneLost(ToAck(NotLoaded(v1.store), parses), mark)
  {
    hide Valid, MarkAsLoaded, ReadStore, Ready, MemGenuine, MemParses, CleanParses, Contained, ToAck, PastCopies;
    hide NotLoaded, Lists, NoneLost, CleanAgrees, Refreshed;
    var v1 := ReadStore(v, read);
    ReadKeeps(v, read, parses);
    var s, seen := v1.store, NotLoaded(v1.store);
    ListingsList(s);
    ListedOnce(s, seen, DirtyIds(s));
    CurrentIsPast(s, seen);
    SyncReady(v1, seen, parses);
    AckedLists(s, parses);
    RefreshedStore(v1, seen, parses);
    var v2 := Refreshed(v1, seen, parses);
    MarkAgreesExactlyWhen(v2, ToAck(seen, parses), Acked(s, parses), mark);
    DirtyIsOutside(v1, v2, seen, parses);
  }

  lemma DirtyIsOutside(v: View, v': View, seen: seq<RecurringTask>, parses: string -> bool)
    requires StoreOk(v.store) && v' == Refreshed(v, seen, parses) && v'.store == v.store
    requires DistinctIds(seen) && IdsOf(seen) == DirtyIds(v.store)
    ensures AgreesOutside(v', Acked(v.store, parses)) <==> CleanAgrees(v)
  {
    hide Valid, Refreshed, DistinctIds, IdsOf;
    forall id | id in v.store.live && Clean(v.store, id)
      ensures id !in Acked(v.store, parses) && AgreesAt(v.store, v'.mem, id) == AgreesAt(v.store, v.mem, id)
    {
      RefreshAt(v, seen, parses, id);
    }
  }

  /** NotLoaded, unlike All, does not refresh the index before it searches. Marking one copy that it
      returned leaves memory in agreement under that id exactly when the copy was current or the
      document has been dirtied since; a copy from before this manager's own mark displaces the newer
      one in memory until the enforcer runs. */
  lemma StaleCopyAgreesExactlyWhen(v: View, t: RecurringTask, plan: MarkPlan)
    requires StoreOk(v.store) && t.id in v.store.live && t.id !in v.mem
    requires GenuineAt(v.store, t, t.id)
    requires !plan.fails && plan.before(0) == [] && plan.fate(0) == Served(false)
    ensures var v' := MarkAsLoaded(v, [t], plan).view;
      && t.id in v'.store.live && v'.store.live[t.id] < |v'.store.log|
      && ((Clean(v'.store, t.id) ==> AgreesAt(v'.store, v'.mem, t.id)) <==>
          t.version == v.store.live[t.id] || !Clean(v.store, t.id))
  {
    hide Valid, Remembered;
    var s, ms := v.store, [Marked(t, plan.at)];
    assert MarkedAll([t], plan.at) == ms && ms[..0] == [];
    MarkItemsGrow(s, ms, plan);
    assert MarkItems(s, ms[..0], plan) == (s, []);
    var (s', replies) := MarkItems(s, ms, plan);
    RememberedItem(v.mem, ms, replies, 0);
    assert MarkAsLoaded(v, [t], plan).view.mem[t.id] == Updated(ms[0], replies[0]);
  }

  // ---- witnesses: runs in which it happens ----

  /** A document store, a clock reading and requests that nobody interferes with. */
  function Quiet(fails: bool): MarkPlan { MarkPlan(0, _ => [], _ => Served(false), fails, false) }

  const FRESH_READ := ReadPlan([], false, None)

  function Plain(kind: Kind, isLeader: bool, read: ReadPlan, fails: bool): Call {
    Call(kind, isLeader, read, Quiet(fails), FRESH_READ, FRESH_READ, Quiet(false))
  }

  /** A manager that has just been started over an empty store. */
  function NewManager(): Managed { Managed(View(Empty(), map[], map[]), false) }

  lemma {:induction false} AfterOne(m: Managed, e: Event, rest: seq<Event>, parses: string -> bool)
    requires Sound(m.view, parses) && PlausibleRun([e] + rest, parses)
    ensures Plausible(e, parses) && PlausibleRun(rest, parses) && Sound(Next(m, e, parses).view, parses)
    ensures After(m, [e] + rest, parses) == After(Next(m, e, parses), rest, parses)
  {
    hide Valid, Next, MemGenuine, MemParses, CleanParses, Contained, CleanAgrees, JobsMatch, Undisturbed, Plausible;
    assert ([e] + rest)[0] == e && ([e] + rest)[1..] == rest;
    NextKeeps(m, e, parses);
    forall i | 0 <= i < |rest|
      ensures Plausible(rest[i], parses)
    {
      assert rest[i] == ([e] + rest)[i + 1];
    }
  }

  lemma {:induction false} AfterConcat(m: Managed, a: seq<Event>, b: seq<Event>, parses: string -> bool)
    requires Sound(m.view, parses) && PlausibleRun(a, parses) && PlausibleRun(b, parses)
    ensures PlausibleRun(a + b, parses)
    ensures After(m, a + b, parses) == After(After(m, a, parses), b, parses)
    decreases a
  {
    hide Valid, Next, Sound, Plausible;
    if a == [] {
      assert a + b == b;
    } else {
      assert (a + b)[0] == a[0] && (a + b)[1..] == a[1..] + b;
      SoundIsOk(m.view, parses);
      NextKeeps(m, a[0], parses);
      AfterConcat(Next(m, a[0], parses), a[1..], b, parses);
    }
  }

  lemma {:induction false} AfterThree(m: Managed, a: Event, b: Event, c: Event, parses: string -> bool)
    requires Sound(m.view, parses) && !a.Elsewhere? && !b.Elsewhere? && !c.Elsewhere?
    ensures PlausibleRun([a, b, c], parses)
    ensures Sound(Next(m, a, parses).view, parses) && Sound(Next(Next(m, a, parses), b, parses).view, parses)
    ensures After(m, [a, b, c], parses) == Next(Next(Next(m, a, parses), b, parses), c, parses)
  {
    hide Valid, Next, MemGenuine, MemParses, CleanParses, Contained;
    assert [a, b, c] == [a] + ([b] + ([c] + []));
    AfterOne(m, a, [b] + ([c] + []), parses);
    AfterOne(Next(m, a, parses), b, [c] + [], parses);
    AfterOne(Next(Next(m, a, parses), b, parses), c, [], parses);
  }

  /** The state after one definition has been created. */
  function Created(body: Body): Managed {
    Managed(View(Put(Empty(), 0, Fresh(body), Api), map[], map[]), false)
  }

  lemma CreatedIsReached(body: Body, parses: string -> bool)
    requires parses(body.expression)
    ensures Started(NewManager(), parses)
    ensures Next(NewManager(), ApiEvent(ApiCreate(0, body)), parses) == Created(body)
    ensures Sound(Created(body).view, parses) && JobsMatch(Created(body).view)
    ensures Runnable(Created(body).view.store, parses) == UndeletedIds(Created(body).view.store) == {0}
  {
    NextKeeps(NewManager(), ApiEvent(ApiCreate(0, body)), parses);
  }

  /** Create a definition; become leader with a MarkLoaded that fails; lose leadership: its job goes on. */
  lemma OrphanedJob(body: Body, parses: string -> bool) returns (events: seq<Event>)
    requires parses(body.expression)
    ensures Started(NewManager(), parses) && PlausibleRun(events, parses)
    ensures var m := After(NewManager(), events, parses); !m.wasLeader && m.view.mem == map[] && m.view.jobs.Keys == {0}
  {
    hide Valid, CompleteReload, After, NewManager, MemGenuine, MemParses, CleanParses, Contained, JobsMatch;
    var create, m1 := ApiEvent(ApiCreate(0, body)), Created(body);
    var lead, lose := CallEvent(Plain(Sync, true, FRESH_READ, true)), CallEvent(Plain(Sync, false, FRESH_READ, false));
    events := [create, lead, lose];
    CreatedIsReached(body, parses);
    LeftScheduledAfterReload(m1.view, parses, FRESH_READ, Quiet(true));
    assert ReadStore(StopAll(m1.view), FRESH_READ) == StopAll(m1.view);
    NewIsSound(parses);
    hide Runnable, UndeletedIds, Created, AfterApi;
    AfterThree(NewManager(), create, lead, lose, parses);
    assert Next(m1, lead, parses) == Managed(CompleteReload(m1.view, parses, FRESH_READ, Quiet(true)).view, true);
  }

  /** Create a definition and become leader: it is in memory, running and clean. */
  function Loaded(body: Body, parses: string -> bool): Managed
    requires StoreOk(Created(body).view.store)
  {
    Managed(CompleteReload(Created(body).view, parses, FRESH_READ, Quiet(false)).view, true)
  }

  lemma LoadedIsClean(body: Body, parses: string -> bool)
    requires parses(body.expression)
    ensures StoreOk(Created(body).view.store)
    ensures Loaded(body, parses).wasLeader
    ensures var v := Loaded(body, parses).view;
      && Sound(v, parses)
      && 0 < |v.store.log| && v.store.log[0].key == 0 && v.store.log[0].doc == Fresh(body)
      && 0 in v.store.live && Clean(v.store, 0) && !LiveDoc(v.store, 0).isDeleted
  {
    CreatedIsReached(body, parses);
    var v := Created(body).view;
    hide Valid, CompleteReload, UndeletedIds, CleanAgrees, LostNothing;
    QuietReloadSyncsExactlyWhen(v, parses, FRESH_READ, Quiet(false));
    ReloadKeeps(v, parses, FRESH_READ, Quiet(false));
    assert v.store.log[0] == CompleteReload(v, parses, FRESH_READ, Quiet(false)).view.store.log[0];
  }

  /** Then sync with a search that still returns the copy from before the mark: memory is left with it. */
  lemma StaleSearchDisagrees(body: Body, parses: string -> bool) returns (events: seq<Event>)
    requires parses(body.expression)
    ensures Started(NewManager(), parses) && PlausibleRun(events, parses)
    ensures var m := After(NewManager(), events, parses); m.wasLeader && !CleanAgrees(m.view)
  {
    hide Valid, CompleteReload, SyncNotLoaded, Runnable, UndeletedIds, After, Next, Created, NewManager, Started;
    hide MemGenuine, MemParses, CleanParses, Contained, JobsMatch, CleanAgrees;
    var create, lead := ApiEvent(ApiCreate(0, body)), CallEvent(Plain(Sync, true, FRESH_READ, false));
    var stale := ReadPlan([], false, Some([0]));
    var sync := CallEvent(Plain(Sync, true, stale, false));
    events := [create, lead, sync];
    LoadedIsClean(body, parses);
    ReachesLoaded(body, parses, create, lead, sync);
    var m2 := Loaded(body, parses);
    ShownOldCopy(m2.view, body, parses, stale, Quiet(false));
    hide Loaded;
    SyncAsLeader(m2, sync, parses);
  }

  lemma ReachesLoaded(body: Body, parses: string -> bool, create: Event, lead: Event, last: Event)
    requires parses(body.expression) && create == ApiEvent(ApiCreate(0, body)) && !last.Elsewhere?
    requires lead == CallEvent(Plain(Sync, true, FRESH_READ, false))
    ensures Started(NewManager(), parses) && Sound(NewManager().view, parses)
    ensures PlausibleRun([create, lead, last], parses)
    ensures StoreOk(Created(body).view.store) && StoreOk(Loaded(body, parses).view.store)
    ensures After(NewManager(), [create, lead, last], parses) == Next(Loaded(body, parses), last, parses)
  {
    CreatedIsReached(body, parses);
    LoadedIsClean(body, parses);
    NewIsSound(parses);
    SoundIsOk(Created(body).view, parses);
    SoundIsOk(Loaded(body, parses).view, parses);
    hide Valid, CompleteReload, Runnable, UndeletedIds, After, Created, NewManager, Next, LiveDoc, Clean, Loaded, Sound;
    hide JobsMatch, Started;
    AfterThree(NewManager(), create, lead, last, parses);
    LeadLoads(body, parses, lead);
  }

  lemma NewIsSound(parses: string -> bool)
    ensures Sound(NewManager().view, parses)
  {
  }

  lemma LeadLoads(body: Body, parses: string -> bool, lead: Event)
    requires StoreOk(Created(body).view.store) && lead == CallEvent(Plain(Sync, true, FRESH_READ, false))
    ensures Next(Created(body), lead, parses) == Loaded(body, parses)
  {
    hide Valid, CompleteReload;
  }

  lemma SyncAsLeader(m: Managed, e: Event, parses: string -> bool)
    requires StoreOk(m.view.store) && m.wasLeader && e.CallEvent? && e.call.isLeader && e.call.kind == Sync
    ensures Next(m, e, parses) == Managed(SyncNotLoaded(m.view, parses, e.call.read, e.call.mark).view, true)
  {
    hide Valid, SyncNotLoaded;
  }

  lemma ShownOldCopy(v: View, body: Body, parses: string -> bool, stale: ReadPlan, mark: MarkPlan)
    requires Sound(v, parses) && QuietMark(mark) && stale == ReadPlan([], false, Some([0]))
    requires 0 < |v.store.log| && v.store.log[0].key == 0 && v.store.log[0].doc == Fresh(body)
    requires 0 in v.store.live && Clean(v.store, 0) && !LiveDoc(v.store, 0).isDeleted
    ensures !CleanAgrees(SyncNotLoaded(v, parses, stale, mark).view)
  {
    hide Valid, SyncNotLoaded, MemGenuine, MemParses, CleanParses, Contained, CleanAgrees;
    SyncAgreesExactlyWhen(v, parses, stale, mark);
    var seen := SeenNotLoaded(v.store, stale);
    assert [0][..0] == [] && StaleHits(v.store, []) == [];
    assert seen == [PastCopy(v.store, 0)];
    assert seen[0] in seen && 0 in IdsOf(seen);
    assert !StaysAgreed(v, seen, parses, 0);
  }

  /** Or lose leadership, and lead again with a read that fails: memory is left empty, the document clean. */
  lemma FailedReloadDisagrees(body: Body, parses: string -> bool) returns (events: seq<Event>)
    requires parses(body.expression)
    ensures Started(NewManager(), parses) && PlausibleRun(events, parses)
    ensures var m := After(NewManager(), events, parses); m.wasLeader && !CleanAgrees(m.view)
  {
    hide Valid, CompleteReload, Runnable, UndeletedIds, After, Next, Created, NewManager, Started, MemGenuine;
    hide MemParses, CleanParses, Contained, JobsMatch, CleanAgrees, StopAll;
    var create, lead := ApiEvent(ApiCreate(0, body)), CallEvent(Plain(Sync, true, FRESH_READ, false));
    var lose := CallEvent(Plain(Sync, false, FRESH_READ, false));
    var again := CallEvent(Plain(Sync, true, ReadPlan([], true, None), false));
    events := [create, lead, lose] + [again];
    LoadedIsClean(body, parses);
    ReachesLoaded(body, parses, create, lead, lose);
    hide Loaded;
    var m2 := Loaded(body, parses);
    EmptiedDisagrees(m2.view, parses, ReadPlan([], true, None), Quiet(false));
    LoseAndLeadAgain(m2, lose, again, parses);
    hide Sound, Plain, Clean, LiveDoc;
    AfterConcat(NewManager(), [create, lead, lose], [again], parses);
    SingleEvent(Managed(StopAll(m2.view), false), again, parses);
  }

  lemma LoseAndLeadAgain(m: Managed, lose: Event, again: Event, parses: string -> bool)
    requires Sound(m.view, parses) && m.wasLeader && StoreOk(m.view.store)
    requires lose == CallEvent(Plain(Sync, false, FRESH_READ, false))
    requires again == CallEvent(Plain(Sync, true, ReadPlan([], true, None), false))
    ensures var m' := Managed(StopAll(m.view), false);
      && Next(m, lose, parses) == m' && Sound(m'.view, parses) && StoreOk(m'.view.store)
      && PlausibleRun([again], parses)
      && Next(m', again, parses) ==
         Managed(CompleteReload(m'.view, parses, ReadPlan([], true, None), Quiet(false)).view, true)
  {
    hide Valid, MemGenuine, MemParses, CleanParses, Contained, CompleteReload;
    StopKeeps(m.view, parses);
  }

  lemma {:induction false} SingleEvent(m: Managed, e: Event, parses: string -> bool)
    requires Sound(m.view, parses) && PlausibleRun([e], parses)
    ensures StoreOk(m.view.store) && After(m, [e], parses) == Next(m, e, parses)
  {
    hide Valid, Next, MemGenuine, MemParses, CleanParses, Contained;
    assert Plausible([e][0], parses);
    NextKeeps(m, e, parses);
    assert [e][1..] == [];
  }

  lemma EmptiedDisagrees(v: View, parses: string -> bool, read: ReadPlan, mark: MarkPlan)
    requires Sound(v, parses) && QuietMark(mark) && read == ReadPlan([], true, None)
    requires 0 in v.store.live && Clean(v.store, 0) && !LiveDoc(v.store, 0).isDeleted
    ensures Sound(StopAll(v), parses) && !CleanAgrees(CompleteReload(StopAll(v), parses, read, mark).view)
  {
    hide Valid, CompleteReload, MemGenuine, MemParses, CleanParses, Contained, CleanAgrees;
    StopKeeps(v, parses);
    FailedReloadAgreesExactlyWhen(StopAll(v), parses, read, mark);
    assert ReadStore(StopAll(StopAll(v)), read).store == v.store;
    assert 0 in UndeletedIds(v.store);
  }

  /** Or create it and become leader, its item written with the answer lost: memory keeps the old version. */
  lemma LostAnswerDisagrees(body: Body, parses: string -> bool) returns (events: seq<Event>)
    requires parses(body.expression)
    ensures Started(NewManager(), parses) && PlausibleRun(events, parses)
    ensures var m := After(NewManager(), events, parses); m.wasLeader && !CleanAgrees(m.view)
  {
    var lost := MarkPlan(0, _ => [], _ => AckLost, false, false);
    var create, m1 := ApiEvent(ApiCreate(0, body)), Created(body);
    var lead := CallEvent(Call(Sync, true, FRESH_READ, lost, FRESH_READ, FRESH_READ, Quiet(false)));
    events := [create] + [lead];
    CreatedIsReached(body, parses);
    NewIsSound(parses);
    LostAnswerLeaves(m1.view, parses, lost);
    SoundIsOk(m1.view, parses);
    SoundIsOk(NewManager().view, parses);
    hide Valid, CompleteReload, CleanAgrees, NewManager, Created, Started, Sound, JobsMatch, Runnable, UndeletedIds;
    AfterConcat(NewManager(), [create], [lead], parses);
    SingleEvent(NewManager(), create, parses);
    SingleEvent(m1, lead, parses);
    assert !m1.wasLeader by { CreatedIsIdle(body); }
    assert Next(m1, lead, parses) == Managed(CompleteReload(m1.view, parses, FRESH_READ, lost).view, true);
  }

  lemma CreatedIsIdle(body: Body)
    ensures !Created(body).wasLeader
  {
  }

  lemma LostAnswerLeaves(v: View, parses: string -> bool, lost: MarkPlan)
    requires Sound(v, parses) && Undisturbing(lost) && !lost.fails && forall n :: lost.fate(n).AckLost?
    requires StoreOk(v.store) && Runnable(v.store, parses) != {}
    ensures !CleanAgrees(CompleteReload(v, parses, FRESH_READ, lost).view)
  {
    hide Valid, CompleteReload, MemGenuine, MemParses, CleanParses, Contained, CleanAgrees, Runnable, Scheduled, All;
    hide Lists;
    ReloadAgreesExactlyWhen(v, parses, FRESH_READ, lost);
    assert ReadStore(StopAll(v), FRESH_READ).store == v.store;
    ReloadLists(v.store, parses);
    EmptyList(Scheduled(All(v.store), parses));
    assert lost.fate(0).AckLost?;
  }
}
