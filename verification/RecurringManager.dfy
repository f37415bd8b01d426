/**
The manager of recurring tasks (internal/domain/task/recurring/manager.go) as it is written, with
fields that its methods update, proved against the functions of RecurringSync.
*/
module RecurringManager {
  import opened Wrappers
  import opened RecurringStore
  import opened RecurringSync
  import opened RecurringService
  import opened CronScheduler

  datatype SyncCheckResults = SyncCheckResults(
    notInDataStore: seq<RecurringTask>,
    notInMemory: seq<RecurringTask>,
    versionMismatch: seq<RecurringTask>)
  {
    predicate NeedsResync() { |notInDataStore| != 0 || |notInMemory| != 0 || |versionMismatch| != 0 }

    /** The same findings; the order in which the map was walked does not matter. */
    ghost predicate Finds(c: Check) {
      IdsOf(notInDataStore) == c.notInDataStore && notInMemory == c.notInMemory && versionMismatch == c.versionMismatch
    }

    lemma SameNeed(c: Check)
      requires Finds(c)
      ensures NeedsResync() <==> RecurringSync.NeedsResync(c)
    {
      if notInDataStore != [] {
        assert notInDataStore[0] in notInDataStore && notInDataStore[0].id in IdsOf(notInDataStore);
      }
    }
  }

  lemma IdsOfSnoc(ts: seq<RecurringTask>, t: RecurringTask)
    ensures IdsOf(ts + [t]) == IdsOf(ts) + {t.id}
  {
    forall id
      ensures id in IdsOf(ts + [t]) <==> id in IdsOf(ts) || id == t.id
    {
      if id in IdsOf(ts) {
        var u :| u in ts && u.id == id;
        assert u in ts + [t];
      }
      assert t in ts + [t];
    }
  }

  lemma EmptyIds()
    ensures IdsOf([]) == {}
  {
  }

  lemma WithoutOneMore(m: TaskMap, ids: set<RecurringId>, id: RecurringId)
    ensures m - (ids + {id}) == m - ids - {id}
  {
  }

  /** Unscheduling first makes no difference to an upsert. */
  lemma UpsertForgets(jobs: TaskMap, t: RecurringTask, parses: string -> bool)
    ensures ScheduleOne(jobs - {t.id}, t, parses) == ScheduleOne(jobs, t, parses)
  {
  }

  lemma {:induction false} AddAllConcat(mem: TaskMap, a: seq<RecurringTask>, b: seq<RecurringTask>)
    ensures AddAll(mem, a + b) == AddAll(AddAll(mem, a), b)
  {
    if b == [] {
      assert a + b == a;
    } else {
      AddAllConcat(mem, a, b[..|b| - 1]);
      assert (a + b)[..|a + b| - 1] == a + b[..|b| - 1];
    }
  }

  class Manager {
    const scheduler: Scheduler
    const service: RecurringIndex
    var scheduledTasks: TaskMap
    var leaderState: bool

    ghost predicate Valid()
      reads this, scheduler, scheduler.cron, service
    {
      && scheduler.Valid() && StoreOk(service.store)
      && forall id :: id in scheduledTasks ==> scheduledTasks[id].id == id
    }

    ghost function CurrentView(): View
      reads this, scheduler, scheduler.cron, service
    {
      View(service.store, scheduledTasks, scheduler.Jobs())
    }

    constructor (scheduler: Scheduler, service: RecurringIndex)
      requires scheduler.Valid() && StoreOk(service.store)
      ensures Valid() && this.scheduler == scheduler && this.service == service
      ensures !leaderState && CurrentView() == View(service.store, map[], scheduler.Jobs())
    {
      this.scheduler := scheduler;
      this.service := service;
      scheduledTasks := map[];
      leaderState := false;
    }

    method UnscheduleAndRemove(t: RecurringTask)
      requires Valid()
      modifies this`scheduledTasks, scheduler, scheduler.cron
      ensures Valid()
      ensures scheduledTasks == old(scheduledTasks) - {t.id} && scheduler.Jobs() == old(scheduler.Jobs()) - {t.id}
    {
      var _ := scheduler.Unschedule(t.id);
      scheduledTasks := scheduledTasks - {t.id};
    }

    method ScheduleAndAdd(t: RecurringTask, loaded: seq<RecurringTask>) returns (loaded': seq<RecurringTask>)
      requires Valid()
      modifies scheduler, scheduler.cron
      ensures Valid() && scheduler.Jobs() == ScheduleOne(old(scheduler.Jobs()), t, scheduler.cron.parses)
      ensures loaded' == loaded + if scheduler.cron.parses(t.body.expression) then [t] else []
    {
      var ok := scheduler.Schedule(t);
      loaded' := if ok then loaded + [t] else loaded;
    }

    /** Walks the map while removing from it. */
    method StopEverything()
      requires Valid()
      modifies this`scheduledTasks, scheduler, scheduler.cron
      ensures Valid() && CurrentView() == StopAll(old(CurrentView()))
    {
      hide StoreOk, TablesOk, JobsOf;
      ghost var mem, jobs, store := scheduledTasks, scheduler.Jobs(), service.store;
      ghost var gone: set<RecurringId> := {};
      assert jobs - gone == jobs;
      while scheduledTasks.Keys != {}
        invariant Valid() && service.store == store
        invariant scheduledTasks.Keys + gone == mem.Keys
        invariant scheduler.Jobs() == jobs - gone
        decreases |scheduledTasks.Keys|
      {
        var id :| id in scheduledTasks.Keys;
        WithoutOneMore(jobs, gone, id);
        UnscheduleAndRemove(scheduledTasks[id]);
        gone := gone + {id};
      }
      assert gone == mem.Keys && scheduledTasks == map[];
    }

    /** Drops the tasks whose documents are gone. */
    method UnscheduleAll(ts: seq<RecurringTask>)
      requires Valid()
      modifies this`scheduledTasks, scheduler, scheduler.cron
      ensures Valid()
      ensures scheduledTasks == old(scheduledTasks) - IdsOf(ts) && scheduler.Jobs() == old(scheduler.Jobs()) - IdsOf(ts)
    {
      hide StoreOk, TablesOk, JobsOf, IdsOf;
      ghost var mem, jobs := scheduledTasks, scheduler.Jobs();
      assert IdsOf([]) == {} by { EmptyIds(); }
      assert ts[..0] == [] && mem - {} == mem && jobs - {} == jobs;
      for i := 0 to |ts|
        invariant Valid()
        invariant scheduledTasks == mem - IdsOf(ts[..i]) && scheduler.Jobs() == jobs - IdsOf(ts[..i])
      {
        assert ts[..i + 1] == ts[..i] + [ts[i]];
        IdsOfSnoc(ts[..i], ts[i]);
        WithoutOneMore(mem, IdsOf(ts[..i]), ts[i].id);
        WithoutOneMore(jobs, IdsOf(ts[..i]), ts[i].id);
        UnscheduleAndRemove(ts[i]);
      }
      assert ts[..|ts|] == ts;
    }

    /** Puts the tasks that are not deleted into the map. */
    method Remember(ts: seq<RecurringTask>)
      requires Valid()
      modifies this`scheduledTasks
      ensures Valid() && scheduledTasks == AddAll(old(scheduledTasks), ts)
    {
      hide StoreOk, TablesOk, JobsOf;
      ghost var mem := scheduledTasks;
      for i := 0 to |ts|
        invariant Valid() && scheduledTasks == AddAll(mem, ts[..i])
      {
        assert ts[..i + 1][..i] == ts[..i];
        if !ts[i].isDeleted {
          scheduledTasks := scheduledTasks[ts[i].id := ts[i]];
        }
      }
      assert ts[..|ts|] == ts;
    }

    /** markAsLoadedAndUpdateScheduledTasksState */
    method MarkAndRemember(loaded: seq<RecurringTask>, plan: MarkPlan) returns (failed: bool)
      requires Valid()
      modifies this`scheduledTasks, scheduler, scheduler.cron, service
      ensures Valid()
      ensures Called(CurrentView(), failed) == MarkAsLoaded(old(CurrentView()), loaded, plan)
    {
      hide StoreOk, TablesOk, JobsOf, MarkItems, Select, IdsOf, AfterApiAll;
      ghost var v := CurrentView();
      MarkAsLoadedKeepsStoreOk(v, loaded, plan);
      if |loaded| == 0 {
        return false;
      }
      var toMarks := new RecurringTask[|loaded|](i requires 0 <= i < |loaded| => loaded[i]);
      assert toMarks[..] == loaded;
      var result := service.MarkLoaded(toMarks, plan);
      ghost var ms := toMarks[..];
      assert ms == MarkedAll(loaded, plan.at);
      ghost var replies := MarkItems(v.store, ms, plan).1;
      match result {
        case None =>
          return true;
        case Some(r) =>
          UnscheduleAll(r.notFounds);
          Remember(r.successes + r.versionConflicts);
          Remember(r.others);
          AddAllConcat(v.mem - IdsOf(r.notFounds), r.successes + r.versionConflicts, r.others);
          assert Kept(ms, replies) == r.successes + r.versionConflicts + r.others;
          return false;
      }
    }

    /** completeReload */
    method Reload(read: ReadPlan, mark: MarkPlan) returns (failed: bool)
      requires Valid()
      modifies this`scheduledTasks, scheduler, scheduler.cron, service
      ensures Valid()
      ensures Called(CurrentView(), failed) == CompleteReload(old(CurrentView()), scheduler.cron.parses, read, mark)
    {
      hide StoreOk, TablesOk, JobsOf, MarkAsLoaded, AfterApiAll, All;
      StopEverything();
      var all := service.SearchAll(read);
      if all == None {
        return true;
      }
      ghost var v, parses := CurrentView(), scheduler.cron.parses;
      ghost var jobs := v.jobs;
      var ts := all.value;
      var loaded := [];
      for i := 0 to |ts|
        invariant Valid() && scheduledTasks == v.mem && service.store == v.store
        invariant scheduler.Jobs() == ScheduleAll(jobs, ts[..i], parses) && loaded == Scheduled(ts[..i], parses)
      {
        assert ts[..i + 1][..i] == ts[..i];
        loaded := ScheduleAndAdd(ts[i], loaded);
      }
      assert ts[..|ts|] == ts;
      failed := MarkAndRemember(loaded, mark);
    }

    /** Unschedules each task and schedules it anew, collecting those that could be. */
    method RescheduleEach(ts: seq<RecurringTask>) returns (loaded: seq<RecurringTask>)
      requires Valid()
      modifies this`scheduledTasks, scheduler, scheduler.cron
      ensures Valid() && loaded == Scheduled(ts, scheduler.cron.parses)
      ensures scheduledTasks == old(scheduledTasks) - IdsOf(ts)
      ensures scheduler.Jobs() == ScheduleAll(old(scheduler.Jobs()), ts, scheduler.cron.parses)
    {
      hide StoreOk, TablesOk, JobsOf, IdsOf;
      ghost var mem, jobs, parses := scheduledTasks, scheduler.Jobs(), scheduler.cron.parses;
      loaded := [];
      assert IdsOf([]) == {} by { EmptyIds(); }
      assert ts[..0] == [] && mem - {} == mem;
      for i := 0 to |ts|
        invariant Valid()
        invariant scheduledTasks == mem - IdsOf(ts[..i])
        invariant scheduler.Jobs() == ScheduleAll(jobs, ts[..i], parses) && loaded == Scheduled(ts[..i], parses)
      {
        assert ts[..i + 1][..i] == ts[..i] && ts[..i + 1] == ts[..i] + [ts[i]];
        IdsOfSnoc(ts[..i], ts[i]);
        WithoutOneMore(mem, IdsOf(ts[..i]), ts[i].id);
        UnscheduleAndRemove(ts[i]);
        loaded := ScheduleAndAdd(ts[i], loaded);
        UpsertForgets(ScheduleAll(jobs, ts[..i], parses), ts[i], parses);
      }
      assert ts[..|ts|] == ts;
    }

    /** syncNotLoaded */
    method SyncUnseen(read: ReadPlan, mark: MarkPlan) returns (failed: bool)
      requires Valid()
      modifies this`scheduledTasks, scheduler, scheduler.cron, service
      ensures Valid()
      ensures Called(CurrentView(), failed) == SyncNotLoaded(old(CurrentView()), scheduler.cron.parses, read, mark)
    {
      hide StoreOk, TablesOk, JobsOf, MarkAsLoaded, AfterApiAll, SeenNotLoaded, ScheduleAll, Scheduled, IdsOf;
      var notLoadeds := service.SearchNotLoaded(read);
      if notLoadeds == None {
        return true;
      }
      var ts := notLoadeds.value;
      var deletedTasks, newOrUpdatedTasks := [], [];
      for i := 0 to |ts|
        invariant deletedTasks == Where(ts[..i], true) && newOrUpdatedTasks == Where(ts[..i], false)
      {
        assert ts[..i + 1][..i] == ts[..i];
        if ts[i].isDeleted {
          deletedTasks := deletedTasks + [ts[i]];
        } else {
          newOrUpdatedTasks := newOrUpdatedTasks + [ts[i]];
        }
      }
      assert ts[..|ts|] == ts;
      UnscheduleAll(deletedTasks);
      var scheduled := RescheduleEach(newOrUpdatedTasks);
      failed := MarkAndRemember(deletedTasks + scheduled, mark);
    }

    /** checkSync */
    method CheckAgainstStore(read: ReadPlan) returns (results: Option<SyncCheckResults>)
      requires Valid()
      modifies service
      ensures Valid() && CurrentView() == ReadStore(old(CurrentView()), read)
      ensures results.None? <==> read.fails
      ensures results.Some? ==> results.value.Finds(CheckSync(scheduledTasks, All(service.store)))
    {
      hide StoreOk, TablesOk, JobsOf, AfterApiAll, All, IdsOf;
      var found := service.SearchAll(read);
      if found == None {
        return None;
      }
      ghost var v := CurrentView();
      var all := found.value;
      var r := SyncCheckResults([], [], []);
      var idsFromDataStore: set<RecurringId> := {};
      EmptyIds();
      assert all[..0] == [];
      for i := 0 to |all|
        invariant Valid() && CurrentView() == v
        invariant idsFromDataStore == IdsOf(all[..i])
        invariant r == SyncCheckResults([], NotIn(all[..i], scheduledTasks), Mismatched(all[..i], scheduledTasks))
      {
        assert all[..i + 1][..i] == all[..i] && all[..i + 1] == all[..i] + [all[i]];
        IdsOfSnoc(all[..i], all[i]);
        idsFromDataStore := idsFromDataStore + {all[i].id};
        if all[i].id !in scheduledTasks {
          r := r.(notInMemory := r.notInMemory + [all[i]]);
        } else if scheduledTasks[all[i].id].version != all[i].version {
          r := r.(versionMismatch := r.versionMismatch + [all[i]]);
        }
      }
      assert all[..|all|] == all;
      var extra := FindExtra(idsFromDataStore);
      return Some(r.(notInDataStore := extra));
    }

    /** The walk over the map, in whatever order. */
    method FindExtra(idsFromDataStore: set<RecurringId>) returns (extra: seq<RecurringTask>)
      requires Valid()
      ensures IdsOf(extra) == scheduledTasks.Keys - idsFromDataStore
    {
      hide StoreOk, TablesOk, JobsOf, IdsOf;
      extra := [];
      EmptyIds();
      var left := scheduledTasks.Keys;
      while left != {}
        invariant left <= scheduledTasks.Keys
        invariant IdsOf(extra) == scheduledTasks.Keys - left - idsFromDataStore
        decreases |left|
      {
        var id :| id in left;
        left := left - {id};
        if id !in idsFromDataStore {
          IdsOfSnoc(extra, scheduledTasks[id]);
          extra := extra + [scheduledTasks[id]];
        }
      }
    }

    /** The part of enforceSync that repairs. */
    method RepairFound(r: SyncCheckResults, ghost c: Check, mark: MarkPlan) returns (failed: bool)
      requires Valid() && r.Finds(c)
      modifies this`scheduledTasks, scheduler, scheduler.cron, service
      ensures Valid()
      ensures Called(CurrentView(), failed) == Repair(old(CurrentView()), c, scheduler.cron.parses, mark)
    {
      hide StoreOk, TablesOk, JobsOf, MarkAsLoaded, ScheduleAll, Scheduled, IdsOf;
      UnscheduleAll(r.notInDataStore);
      var acked := RescheduleEach(r.notInMemory + r.versionMismatch);
      failed := MarkAndRemember(acked, mark);
    }

    /** enforceSync */
    method Enforce(read: ReadPlan, mark: MarkPlan, recheck: ReadPlan, reloadRead: ReadPlan, reloadMark: MarkPlan)
      returns (failed: bool)
      requires Valid()
      modifies this`scheduledTasks, scheduler, scheduler.cron, service
      ensures Valid()
      ensures Called(CurrentView(), failed) ==
              EnforceSync(old(CurrentView()), scheduler.cron.parses, read, mark, recheck, reloadRead, reloadMark)
    {
      hide VersionedStore.Valid, TablesOk, JobsOf, CompleteReload, Repair, ReadStore, CheckSync;
      hide RecurringSync.NeedsResync, All;
      var checkResults := CheckAgainstStore(read);
      if checkResults == None {
        return true;
      }
      ghost var c := CheckSync(scheduledTasks, All(service.store));
      checkResults.value.SameNeed(c);
      if !checkResults.value.NeedsResync() {
        return false;
      }
      failed := RepairFound(checkResults.value, c, mark);
      if failed {
        return;
      }
      var post := CheckAgainstStore(recheck);
      if post == None {
        return true;
      }
      post.value.SameNeed(CheckSync(scheduledTasks, All(service.store)));
      if post.value.NeedsResync() {
        failed := Reload(reloadRead, reloadMark);
      }
    }

    ghost function State(): Managed
      reads this, scheduler, scheduler.cron, service
    {
      Managed(CurrentView(), leaderState)
    }

    /** recurringFunc */
    method RecurringFunc(call: Call) returns (failed: bool)
      requires Valid()
      modifies this, scheduler, scheduler.cron, service
      ensures Valid()
      ensures (State(), failed) == AfterCall(old(State()), call, scheduler.cron.parses)
    {
      hide StoreOk, TablesOk, JobsOf, CompleteReload, SyncNotLoaded, EnforceSync;
      var previousLeaderState := leaderState;
      leaderState := call.isLeader;
      failed := false;
      if !previousLeaderState && leaderState {
        failed := Reload(call.read, call.mark);
      } else if previousLeaderState && leaderState {
        if call.kind == Sync {
          failed := SyncUnseen(call.read, call.mark);
        } else {
          failed := Enforce(call.read, call.mark, call.recheck, call.reloadRead, call.reloadMark);
        }
      } else if previousLeaderState && !leaderState {
        StopEverything();
      }
    }
  }
}
