/**
What one call of the manager comes to, for each of the two functions that its runner calls and whether this
process led and leads: which documents it writes, what it puts in step, and when it changes nothing.
*/
module RecurringCalls {
  import opened VersionedStore
  import opened RecurringStore
  import opened RecurringSync
  import opened RecurringListings
  import opened RecurringTheorems
  import opened RecurringRuns
  import opened RecurringMarking
  import opened RecurringQuiescence
  import opened RecurringEnforcer
  import opened RecurringExpressions

  /** Nothing else writes during the call, and every request is served and answered. */
  ghost predicate QuietCall(call: Call) {
    && QuietRead(call.read) && QuietMark(call.mark) && QuietRead(call.recheck)
    && QuietRead(call.reloadRead) && QuietMark(call.reloadMark)
  }

  /** Exactly the documents under ids have been written. */
  ghost predicate WritesExactly(s: RecurringStore, s': RecurringStore, ids: set<RecurringId>) {
    s'.live.Keys == s.live.Keys && forall id :: id in s.live ==> (s'.live[id] != s.live[id] <==> id in ids)
  }

  lemma MarkingWrites(v: View, loaded: seq<RecurringTask>, ids: set<RecurringId>, mark: MarkPlan)
    requires Ready(v, loaded) && QuietMark(mark) && ids <= v.store.live.Keys && Lists(v.store, loaded, ids)
    ensures WritesExactly(v.store, MarkAsLoaded(v, loaded, mark).view.store, ids)
  {
    hide Valid, MarkAsLoaded, AgreesAt, Clean, Contained, PastCopies, Lists, DistinctIds;
    QuietListing(v, loaded, ids, mark);
    var v' := MarkAsLoaded(v, loaded, mark).view;
    forall id | id in v.store.live
      ensures v'.store.live[id] != v.store.live[id] <==> id in ids
    {
      assert QuietlyMarked(v, v', ids, id);
    }
  }

  /** A reload writes the documents of everything that can run. */
  lemma ReloadWrites(v: View, parses: string -> bool, read: ReadPlan, mark: MarkPlan)
    requires Sound(v, parses) && QuietRead(read) && QuietMark(mark)
    ensures WritesExactly(v.store, CompleteReload(v, parses, read, mark).view.store, Runnable(v.store, parses))
  {
    hide Valid, MarkAsLoaded, MemGenuine, MemParses, CleanParses, Lists, Scheduled, UndeletedIds, Runnable, Ready, All;
    hide Contained, DistinctIds, Alive, WritesExactly, Rescheduled;
    var s, v1 := v.store, StopAll(v);
    StopKeeps(v, parses);
    assert ReadStore(v1, read) == v1;
    ReloadReady(v1, parses);
    RunnableAreUndeleted(s, parses);
    UndeletedAreLive(s);
    SameStore(v1, parses);
    MarkingWrites(Rescheduled(v1, parses), Scheduled(All(s), parses), Runnable(s, parses), mark);
  }

  lemma SameStore(v: View, parses: string -> bool)
    requires StoreOk(v.store)
    ensures Rescheduled(v, parses).store == v.store
  {
  }

  /** Incremental sync writes the documents that were changed since they were last seen, but for definitions that
      do not parse. */
  lemma SyncWrites(v: View, parses: string -> bool, read: ReadPlan, mark: MarkPlan)
    requires Sound(v, parses) && QuietRead(read) && QuietMark(mark)
    ensures WritesExactly(v.store, SyncNotLoaded(v, parses, read, mark).view.store, Acked(v.store, parses))
  {
    hide Valid, MarkAsLoaded, MemGenuine, MemParses, CleanParses, Lists, Ready, ToAck, Contained, DistinctIds;
    hide Refreshed;
    hide WritesExactly, Acked, PastCopies, CurrentCopies, NotLoaded;
    var s, seen := v.store, NotLoaded(v.store);
    assert ReadStore(v, read) == v;
    ListingsList(s);
    ListedOnce(s, seen, DirtyIds(s));
    CurrentIsPast(s, seen);
    SyncReady(v, seen, parses);
    AckedLists(s, parses);
    AckedAreLiveIds(s, parses);
    RefreshedStore(v, seen, parses);
    MarkingWrites(Refreshed(v, seen, parses), ToAck(seen, parses), Acked(s, parses), mark);
  }

  lemma AckedAreLiveIds(s: RecurringStore, parses: string -> bool)
    requires StoreOk(s)
    ensures Acked(s, parses) <= s.live.Keys
  {
  }

  /** And it leaves every other id alone, in memory and in the scheduler. */
  lemma SyncTouches(v: View, parses: string -> bool, read: ReadPlan, mark: MarkPlan, id: RecurringId)
    requires Sound(v, parses) && QuietRead(read) && QuietMark(mark) && id !in DirtyIds(v.store)
    ensures var v' := SyncNotLoaded(v, parses, read, mark).view;
      && (id in v'.mem <==> id in v.mem) && (id in v.mem ==> v'.mem[id] == v.mem[id])
      && (id in v'.jobs <==> id in v.jobs) && (id in v.jobs ==> v'.jobs[id] == v.jobs[id])
  {
    hide Valid, MarkAsLoaded, MemGenuine, MemParses, CleanParses, Lists, Ready, ToAck, Contained, DistinctIds;
    hide Refreshed;
    hide PastCopies, CurrentCopies, NotLoaded, DirtyIds, IdsOf;
    var s, seen := v.store, NotLoaded(v.store);
    assert ReadStore(v, read) == v;
    ListingsList(s);
    ListedOnce(s, seen, DirtyIds(s));
    CurrentIsPast(s, seen);
    SyncReady(v, seen, parses);
    AckedAre(seen, parses);
    RefreshedStore(v, seen, parses);
    RefreshAt(v, seen, parses, id);
    QuietMarking(Refreshed(v, seen, parses), ToAck(seen, parses), mark);
    NotAcked(seen, parses, id);
  }

  lemma NotAcked(seen: seq<RecurringTask>, parses: string -> bool, id: RecurringId)
    requires DistinctIds(seen) && id !in IdsOf(seen)
    ensures id !in IdsOf(ToAck(seen, parses))
  {
    AckedAre(seen, parses);
  }

  /** The repair of the enforcer writes the documents that are out of step, but for definitions that do not parse. */
  lemma RepairWrites(v: View, parses: string -> bool, mark: MarkPlan)
    requires Sound(v, parses) && QuietMark(mark)
    ensures OutOfStep(v.store, v.mem) <= v.store.live.Keys
    ensures WritesExactly(v.store, Repair(v, CheckSync(v.mem, All(v.store)), parses, mark).view.store,
                          Parsing(v.store, OutOfStep(v.store, v.mem), parses))
  {
    hide Valid, MarkAsLoaded, MemGenuine, MemParses, CleanParses, Lists, Ready, CheckSync, ToResync, Scheduled;
    hide Corrected;
    hide Contained, DistinctIds, Alive, WritesExactly, OutOfStep, Parsing, UndeletedIds, Runnable;
    var s, c := v.store, CheckSync(v.mem, All(v.store));
    RepairReady(v, parses);
    OutOfStepRunnable(s, v.mem, parses);
    RunnableAreUndeleted(s, parses);
    CorrectedStore(v, c, parses);
    MarkingWrites(Corrected(v, c, parses), Scheduled(ToResync(c), parses), Parsing(s, OutOfStep(s, v.mem), parses),
        mark);
  }

  // ---- the calls ----

  /** A call of the enforcer, by a process that leads and goes on leading, puts memory in step from any memory of
      genuine copies, and memory, scheduler and store exactly when each job was accounted for. */
  lemma EnforceCallConverges(m: Managed, call: Call, parses: string -> bool)
    requires m.wasLeader && call.isLeader && call.kind == Enforce
    requires Sound(m.view, parses) && QuietCall(call)
    ensures var (m', failed) := AfterCall(m, call, parses);
      && !failed && m'.wasLeader && SameDocs(m.view.store, m'.view.store) && MemoryInStep(m'.view, parses)
      && (InSync(m'.view, parses) <==> m.view.jobs.Keys <= m.view.mem.Keys + UndeletedIds(m.view.store))
  {
    hide Valid, Sound, EnforceSync, CompleteReload, SyncNotLoaded, InSync, MemoryInStep, SameDocs, UndeletedIds;
    SoundIsOk(m.view, parses);
    EnforceConverges(m.view, parses, call.read, call.mark, call.recheck, call.reloadRead, call.reloadMark);
  }

  /** From a view in step such a call changes and writes nothing exactly when every undeleted expression parses
      or none does. */
  lemma EnforceCallIdleExactlyWhen(m: Managed, call: Call, parses: string -> bool)
    requires m.wasLeader && call.isLeader && call.kind == Enforce
    requires Sound(m.view, parses) && InSync(m.view, parses) && QuietCall(call)
    ensures var m' := AfterCall(m, call, parses).0;
      var idle := Runnable(m.view.store, parses) == UndeletedIds(m.view.store) || Runnable(m.view.store, parses) == {};
      && (m' == m <==> idle)
      && (|m'.view.store.log| > |m.view.store.log| <==> !idle)
  {
    hide Valid, Sound, EnforceSync, CompleteReload, SyncNotLoaded, InSync, UndeletedIds, Runnable;
    SoundIsOk(m.view, parses);
    EnforcerIsIdleExactlyWhen(m.view, parses, call.read, call.mark, call.recheck, call.reloadRead, call.reloadMark);
  }

  /** And from any view, if every undeleted expression parses, it writes exactly the documents that were out of
      step: nothing is reloaded. */
  lemma EnforceCallWrites(m: Managed, call: Call, parses: string -> bool)
    requires m.wasLeader && call.isLeader && call.kind == Enforce
    requires Sound(m.view, parses) && QuietCall(call)
    requires StoreOk(m.view.store) && Runnable(m.view.store, parses) == UndeletedIds(m.view.store)
    ensures WritesExactly(m.view.store, AfterCall(m, call, parses).0.view.store, OutOfStep(m.view.store, m.view.mem))
  {
    hide Valid, Sound, EnforceSync, CompleteReload, SyncNotLoaded, InSync, MemoryInStep, SameDocs, UndeletedIds;
    hide Runnable;
    hide CheckSync, NeedsResync, Repair, OutOfStep, WritesExactly, Parsing;
    var v, c := m.view, CheckSync(m.view.mem, All(m.view.store));
    AllOutOfStepParse(v, parses);
    if NeedsResync(c) {
      RepairSyncs(v, parses, call.mark);
      RepairWrites(v, parses, call.mark);
      var repaired := Repair(v, c, parses, call.mark);
      SoundIsOk(repaired.view, parses);
      SameDocsRunTheSame(v.store, repaired.view.store, parses);
      InStepFindsNothing(repaired.view, parses);
      QuietEnforceRepairs(v, parses, call.read, call.mark, call.recheck, call.reloadRead, call.reloadMark);
    } else {
      QuietEnforceIdle(v, parses, call.read, call.mark, call.recheck, call.reloadRead, call.reloadMark);
      NeedsResyncExactlyWhen(v.store, v.mem);
      NothingIsWritten(v.store);
    }
  }

  lemma AllOutOfStepParse(v: View, parses: string -> bool)
    requires StoreOk(v.store) && Runnable(v.store, parses) == UndeletedIds(v.store)
    ensures OutOfStep(v.store, v.mem) <= v.store.live.Keys
    ensures Parsing(v.store, OutOfStep(v.store, v.mem), parses) == OutOfStep(v.store, v.mem)
  {
    hide Valid;
    forall id | id in OutOfStep(v.store, v.mem)
      ensures id in Parsing(v.store, OutOfStep(v.store, v.mem), parses)
    {
      assert id in UndeletedIds(v.store);
      assert id in Runnable(v.store, parses);
    }
  }

  lemma NothingIsWritten(s: RecurringStore)
    ensures WritesExactly(s, s, {})
  {
  }

  /** A call of incremental sync, by a process that leads and goes on leading, writes exactly the documents that
      were changed since they were last seen and are deleted or parse; other ids stay as they are, in memory and
      in the scheduler. It puts everything in step exactly when memory agreed with every clean document and the
      jobs had the same clean ids. */
  lemma SyncCallWrites(m: Managed, call: Call, parses: string -> bool)
    requires m.wasLeader && call.isLeader && call.kind == Sync
    requires Sound(m.view, parses) && QuietCall(call)
    ensures StoreOk(m.view.store)
    ensures var (m', failed) := AfterCall(m, call, parses);
      var v, v' := m.view, m'.view;
      && !failed && m'.wasLeader && SameDocs(v.store, v'.store)
      && WritesExactly(v.store, v'.store, Acked(v.store, parses))
      && (forall id :: id !in DirtyIds(v.store) ==>
            && (id in v'.mem <==> id in v.mem) && (id in v.mem ==> v'.mem[id] == v.mem[id])
            && (id in v'.jobs <==> id in v.jobs) && (id in v.jobs ==> v'.jobs[id] == v.jobs[id]))
      && (InSync(v', parses) <==>
            CleanAgrees(v) && v.jobs.Keys - DirtyIds(v.store) == v.mem.Keys - DirtyIds(v.store))
  {
    hide Valid, Sound, EnforceSync, CompleteReload, SyncNotLoaded, InSync, SameDocs, WritesExactly, Acked, DirtyIds;
    hide CleanAgrees;
    SoundIsOk(m.view, parses);
    QuietSyncSyncsExactlyWhen(m.view, parses, call.read, call.mark);
    SyncWrites(m.view, parses, call.read, call.mark);
    forall id | id !in DirtyIds(m.view.store)
      ensures var v, v' := m.view, AfterCall(m, call, parses).0.view;
        && (id in v'.mem <==> id in v.mem) && (id in v.mem ==> v'.mem[id] == v.mem[id])
        && (id in v'.jobs <==> id in v.jobs) && (id in v.jobs ==> v'.jobs[id] == v.jobs[id])
    {
      SyncTouches(m.view, parses, call.read, call.mark, id);
    }
  }

  /** The call that gains leadership, whichever function it is of, puts memory in step, and writes the document of
      everything that can run. */
  lemma GainingCallReloads(m: Managed, call: Call, parses: string -> bool)
    requires !m.wasLeader && call.isLeader && Sound(m.view, parses) && QuietCall(call)
    ensures StoreOk(m.view.store)
    ensures var (m', failed) := AfterCall(m, call, parses);
      && !failed && m'.wasLeader && SameDocs(m.view.store, m'.view.store) && MemoryInStep(m'.view, parses)
      && WritesExactly(m.view.store, m'.view.store, Runnable(m.view.store, parses))
      && (InSync(m'.view, parses) <==> m.view.jobs.Keys <= m.view.mem.Keys + UndeletedIds(m.view.store))
  {
    hide Valid, Sound, EnforceSync, CompleteReload, SyncNotLoaded, InSync, SameDocs, WritesExactly, MemoryInStep;
    hide Runnable, UndeletedIds;
    SoundIsOk(m.view, parses);
    QuietReloadSyncsExactlyWhen(m.view, parses, call.read, call.mark);
    ReloadWrites(m.view, parses, call.read, call.mark);
  }

  /** A call by a process that no longer leads unschedules what its memory lists, forgets it, and writes nothing;
      one by a process that did not lead either does nothing at all. Neither fails. */
  lemma FollowingCallStops(m: Managed, call: Call, parses: string -> bool)
    requires StoreOk(m.view.store) && !call.isLeader
    ensures var (m', failed) := AfterCall(m, call, parses);
      && !failed && !m'.wasLeader && m'.view.store == m.view.store
      && (m.wasLeader ==> m'.view.mem == map[])
      && (m.wasLeader ==> forall id :: id in m'.view.jobs <==> id in m.view.jobs && id !in m.view.mem)
      && (m.wasLeader ==> forall id :: id in m'.view.jobs ==> m'.view.jobs[id] == m.view.jobs[id])
      && (!m.wasLeader ==> m' == m)
  {
    hide Valid;
  }

  // ---- when a call fails ----

  lemma ReloadFailsExactlyWhen(v: View, parses: string -> bool, read: ReadPlan, mark: MarkPlan)
    requires Sound(v, parses)
    ensures CompleteReload(v, parses, read, mark).failed <==>
            read.fails || (mark.fails && Runnable(ReadStore(StopAll(v), read).store, parses) != {})
  {
    hide Valid, MarkAsLoaded, ReadStore, Lists, MemGenuine, MemParses, CleanParses, Contained, Scheduled, All, Runnable;
    hide Rescheduled, UndeletedIds, DistinctIds, PastCopies, Alive, IdsOf;
    StopKeeps(v, parses);
    var v1 := ReadStore(StopAll(v), read);
    ReadKeeps(StopAll(v), read, parses);
    ReloadLists(v1.store, parses);
    EmptyList(Scheduled(All(v1.store), parses));
    SameStore(v1, parses);
    MarkFailsExactlyWhen(Rescheduled(v1, parses), Scheduled(All(v1.store), parses), mark);
  }

  lemma SyncFailsExactlyWhen(v: View, parses: string -> bool, read: ReadPlan, mark: MarkPlan)
    requires Sound(v, parses)
    ensures var seen := SeenNotLoaded(ReadStore(v, read).store, read);
      SyncNotLoaded(v, parses, read, mark).failed <==>
      read.fails || (mark.fails && exists t :: t in seen && (t.isDeleted || parses(t.body.expression)))
  {
    hide Valid, MarkAsLoaded, ReadStore, MemGenuine, MemParses, CleanParses, Contained, SeenNotLoaded, ToAck, Refreshed;
    hide DistinctIds, PastCopies;
    var v1 := ReadStore(v, read);
    ReadKeeps(v, read, parses);
    var seen := SeenNotLoaded(v1.store, read);
    SeenArePast(v1.store, read);
    AckedAre(seen, parses);
    RefreshedStore(v1, seen, parses);
    MarkFailsExactlyWhen(Refreshed(v1, seen, parses), ToAck(seen, parses), mark);
    if ToAck(seen, parses) != [] { assert ToAck(seen, parses)[0] in ToAck(seen, parses); }
  }

  /** The enforcer fails exactly when a read fails that it gets to, or a MarkLoaded that it gets to and has
      something to mark. */
  lemma EnforceFailsExactlyWhen(v: View, parses: string -> bool, read: ReadPlan, mark: MarkPlan, recheck: ReadPlan,
                                reloadRead: ReadPlan, reloadMark: MarkPlan)
    requires Sound(v, parses)
    ensures var v1 := ReadStore(v, read);
      var c := CheckSync(v1.mem, All(v1.store));
      OutOfStep(v1.store, v1.mem) <= v1.store.live.Keys && StoreOk(Repair(v1, c, parses, mark).view.store) &&
      var v2 := ReadStore(Repair(v1, c, parses, mark).view, recheck);
      EnforceSync(v, parses, read, mark, recheck, reloadRead, reloadMark).failed <==>
      || read.fails
      || (&& NeedsResync(c)
          && (|| (mark.fails && Parsing(v1.store, OutOfStep(v1.store, v1.mem), parses) != {})
              || recheck.fails
              || (&& NeedsResync(CheckSync(v2.mem, All(v2.store)))
                  && (reloadRead.fails
                      || (reloadMark.fails && Runnable(ReadStore(StopAll(v2), reloadRead).store, parses) != {})))))
  {
    hide Valid, MemGenuine, MemParses, CleanParses, Contained, ReadStore, CheckSync, NeedsResync, Repair;
    hide CompleteReload;
    hide OutOfStep, Parsing, Runnable, MarkAsLoaded;
    var v1 := ReadStore(v, read);
    ReadKeeps(v, read, parses);
    RepairKeeps(v1, parses, mark);
    var repaired := Repair(v1, CheckSync(v1.mem, All(v1.store)), parses, mark);
    ReadKeeps(repaired.view, recheck, parses);
    ReloadFailsExactlyWhen(ReadStore(repaired.view, recheck), parses, reloadRead, reloadMark);
  }

  /** A call that gains leadership fails exactly when its read does, or its MarkLoaded with something to mark; so
      does one of incremental sync. */
  lemma CallFailsExactlyWhen(m: Managed, call: Call, parses: string -> bool)
    requires Sound(m.view, parses) && call.isLeader && (m.wasLeader ==> call.kind == Sync)
    ensures StoreOk(m.view.store)
    ensures AfterCall(m, call, parses).1 <==>
            || call.read.fails
            || (&& call.mark.fails
                && if !m.wasLeader then Runnable(ReadStore(StopAll(m.view), call.read).store, parses) != {}
                   else exists t :: && t in SeenNotLoaded(ReadStore(m.view, call.read).store, call.read)
                                    && (t.isDeleted || parses(t.body.expression)))
  {
    hide Valid, Sound, CompleteReload, SyncNotLoaded, ReadStore, SeenNotLoaded, Runnable;
    SoundIsOk(m.view, parses);
    ReloadFailsExactlyWhen(m.view, parses, call.read, call.mark);
    SyncFailsExactlyWhen(m.view, parses, call.read, call.mark);
  }
}
