/**
The periodic enforcer on a quiet store: it converges, and then stays idle.
*/
module RecurringEnforcer {
  import opened VersionedStore
  import opened RecurringStore
  import opened RecurringSync
  import opened RecurringListings
  import opened RecurringTheorems
  import opened RecurringRuns
  import opened RecurringMarking
  import opened RecurringQuiescence

  /** One id after a quiet repair. */
  lemma RepairedAt(v: View, v2: View, v': View, parses: string -> bool, id: RecurringId)
    requires Sound(v, parses) && v2.store == v.store && CorrectedAt(v, v2, parses, id)
    requires StoreOk(v'.store) && v'.store.live.Keys == v.store.live.Keys
    requires Parsing(v.store, OutOfStep(v.store, v.mem), parses) <= v.store.live.Keys
    requires QuietlyMarked(v2, v', Parsing(v.store, OutOfStep(v.store, v.mem), parses), id)
    ensures id in v'.mem <==> id in Runnable(v.store, parses)
    ensures id in v'.mem ==> AgreesAt(v'.store, v'.mem, id)
    ensures id in v2.jobs <==>
            id in Runnable(v.store, parses) || (id in v.jobs && id !in v.mem && id !in UndeletedIds(v.store))
  {
    hide Valid;
    if id in v.mem { assert GenuineAt(v.store, v.mem[id], id); }
  }

  /** A quiet repair completes memory, and keeps exactly the jobs too many that memory did not list. */
  lemma RepairSyncs(v: View, parses: string -> bool, mark: MarkPlan)
    requires Sound(v, parses) && QuietMark(mark)
    ensures var c := Repair(v, CheckSync(v.mem, All(v.store)), parses, mark);
      && !c.failed && Sound(c.view, parses) && SameDocs(v.store, c.view.store)
      && v.store.log <= c.view.store.log
      && c.view.mem.Keys == Runnable(v.store, parses)
      && c.view.jobs.Keys == Runnable(v.store, parses) + (v.jobs.Keys - v.mem.Keys - UndeletedIds(v.store))
      && MemoryInStep(c.view, parses)
      && (InSync(c.view, parses) <==> v.jobs.Keys <= v.mem.Keys + UndeletedIds(v.store))
  {
    hide Valid, MarkAsLoaded, GenuineAt, CleanParses, CleanAgrees, Lists, QuietlyMarked, Clean, CorrectedAt, CheckSync;
    hide Ready, ToResync, Runnable, JobsMatch, JobsReady, OutOfStep, Scheduled, UndeletedIds, Parsing, MemParses;
    hide MemGenuine, Contained, InSync, MemoryInStep, SameDocs, Corrected, Alive;
    var s, c := v.store, CheckSync(v.mem, All(v.store));
    RepairReady(v, parses);
    OutOfStepRunnable(s, v.mem, parses);
    RepairKeeps(v, parses, mark);
    var v2, loaded, ids :=
        Corrected(v, c, parses), Scheduled(ToResync(c), parses), Parsing(s, OutOfStep(s, v.mem), parses);
    CorrectedStore(v, c, parses);
    RunnableAreUndeleted(s, parses);
    UndeletedAreLive(s);
    QuietListing(v2, loaded, ids, mark);
    var v' := MarkAsLoaded(v2, loaded, mark).view;
    MarkingKeepsDocs(v2, v', ids, parses);
    forall id
      ensures id in v'.mem <==> id in Runnable(s, parses)
      ensures id in v'.mem ==> AgreesAt(v'.store, v'.mem, id)
      ensures id in v2.jobs <==> id in Runnable(s, parses) || (id in v.jobs && id !in v.mem && id !in UndeletedIds(s))
    {
      CorrectAt(v, parses, id);
      RepairedAt(v, v2, v', parses, id);
    }
    InSyncExactlyWhen(v', parses, v.jobs.Keys - v.mem.Keys - UndeletedIds(s));
    Leftover(v.jobs.Keys, v.mem.Keys, UndeletedIds(s));
  }

  lemma NothingFoundIsInSync(v: View, parses: string -> bool)
    requires Sound(v, parses) && !NeedsResync(CheckSync(v.mem, All(v.store)))
    ensures Runnable(v.store, parses) == UndeletedIds(v.store) == v.mem.Keys
    ensures MemoryInStep(v, parses)
    ensures InSync(v, parses) <==> v.jobs.Keys <= v.mem.Keys + UndeletedIds(v.store)
    ensures v.jobs.Keys == v.mem.Keys + (v.jobs.Keys - v.mem.Keys - UndeletedIds(v.store))
  {
    hide Valid, CheckSync, NeedsResync, CleanAgrees;
    NothingFoundAgrees(v, parses);
    NeedsResyncExactlyWhen(v.store, v.mem);
    forall id | id in v.mem
      ensures AgreesAt(v.store, v.mem, id) && id in Runnable(v.store, parses)
    {
      assert id !in OutOfStep(v.store, v.mem);
      assert GenuineAt(v.store, v.mem[id], id);
    }
    hide Runnable;
    assert v.jobs.Keys == v.mem.Keys + (v.jobs.Keys - v.mem.Keys - UndeletedIds(v.store)) by {
      forall id | id in v.mem.Keys
        ensures id in v.jobs.Keys
      {
      }
    }
    InSyncExactlyWhen(v, parses, v.jobs.Keys - v.mem.Keys - UndeletedIds(v.store));
    Leftover(v.jobs.Keys, v.mem.Keys, UndeletedIds(v.store));
  }

  lemma SameDocsTransitive(s0: RecurringStore, s1: RecurringStore, s2: RecurringStore)
    requires SameDocs(s0, s1) && SameDocs(s1, s2)
    ensures SameDocs(s0, s2)
  {
    hide Valid;
  }

  /** What a repair or a reload leaves on a quiet store: memory in step, and of the jobs too many exactly
      those that neither memory nor an undeleted document accounted for. */
  ghost predicate Converged(v: View, c: Called, parses: string -> bool)
    requires StoreOk(v.store)
  {
    && !c.failed && SameDocs(v.store, c.view.store) && MemoryInStep(c.view, parses)
    && c.view.mem.Keys == Runnable(v.store, parses)
    && c.view.jobs.Keys == Runnable(v.store, parses) + (v.jobs.Keys - v.mem.Keys - UndeletedIds(v.store))
    && (InSync(c.view, parses) <==> v.jobs.Keys <= v.mem.Keys + UndeletedIds(v.store))
  }

  /** A quiet reload after a quiet repair. */
  lemma ReloadAfterRepair(v: View, repaired: Called, parses: string -> bool, read: ReadPlan, mark: MarkPlan)
    requires StoreOk(v.store) && Converged(v, repaired, parses) && Sound(repaired.view, parses)
    requires QuietRead(read) && QuietMark(mark)
    ensures Converged(v, CompleteReload(repaired.view, parses, read, mark), parses)
  {
    hide Valid, CompleteReload, MemGenuine, MemParses, CleanParses, Contained, UndeletedIds, Runnable, InSync, SameDocs;
    hide MemoryInStep;
    var v2 := repaired.view;
    QuietReloadSyncsExactlyWhen(v2, parses, read, mark);
    var v3 := CompleteReload(v2, parses, read, mark).view;
    SameDocsRunTheSame(v.store, v2.store, parses);
    SameDocsTransitive(v.store, v2.store, v3.store);
    RunnableAreUndeleted(v.store, parses);
    Leftover(v.jobs.Keys, v.mem.Keys, UndeletedIds(v.store));
    Leftover(v2.jobs.Keys, v2.mem.Keys, UndeletedIds(v.store));
    assert v2.jobs.Keys - v2.mem.Keys - UndeletedIds(v.store) == v.jobs.Keys - v.mem.Keys - UndeletedIds(v.store);
  }

  /** The enforcer converges from any memory of genuine copies: memory ends in step, and memory, scheduler
      and store do, each job with the store's definition, exactly when no job is running that neither
      memory nor an undeleted document accounts for. Such a job survives check, repair and reload. */
  lemma EnforceConverges(v: View, parses: string -> bool, read: ReadPlan, mark: MarkPlan, recheck: ReadPlan,
                         reloadRead: ReadPlan, reloadMark: MarkPlan)
    requires Sound(v, parses)
    requires QuietRead(read) && QuietMark(mark) && QuietRead(recheck) && QuietRead(reloadRead) && QuietMark(reloadMark)
    ensures var c := EnforceSync(v, parses, read, mark, recheck, reloadRead, reloadMark);
      && !c.failed && SameDocs(v.store, c.view.store) && MemoryInStep(c.view, parses)
      && c.view.mem.Keys == Runnable(v.store, parses)
      && c.view.jobs.Keys == Runnable(v.store, parses) + (v.jobs.Keys - v.mem.Keys - UndeletedIds(v.store))
      && (InSync(c.view, parses) <==> v.jobs.Keys <= v.mem.Keys + UndeletedIds(v.store))
      && (JobsMatch(v) ==> JobsMatch(c.view))
  {
    SoundIsOk(v, parses);
    EnforceKeepsMatch(v, parses, read, mark, recheck, reloadRead, reloadMark);
    hide Valid, Sound, EnforceSync, CheckSync, CompleteReload, NeedsResync, Repair, JobsMatch, UndeletedIds, Runnable;
    hide InSync, SameDocs, MemoryInStep;
    var c := CheckSync(v.mem, All(v.store));
    if !NeedsResync(c) {
      NothingFoundIsInSync(v, parses);
      SameDocsReflexive(v.store);
      QuietEnforceIdle(v, parses, read, mark, recheck, reloadRead, reloadMark);
    } else {
      RepairSyncs(v, parses, mark);
      var repaired := Repair(v, c, parses, mark);
      SoundIsOk(repaired.view, parses);
      QuietEnforceRepairs(v, parses, read, mark, recheck, reloadRead, reloadMark);
      ReloadAfterRepair(v, repaired, parses, reloadRead, reloadMark);
    }
  }

  lemma QuietEnforceIdle(v: View, parses: string -> bool, read: ReadPlan, mark: MarkPlan, recheck: ReadPlan,
                         reloadRead: ReadPlan, reloadMark: MarkPlan)
    requires StoreOk(v.store) && QuietRead(read) && !NeedsResync(CheckSync(v.mem, All(v.store)))
    ensures EnforceSync(v, parses, read, mark, recheck, reloadRead, reloadMark) == Called(v, false)
  {
    hide Valid, CheckSync, NeedsResync;
    assert ReadStore(v, read) == v;
  }

  lemma QuietEnforceRepairs(v: View, parses: string -> bool, read: ReadPlan, mark: MarkPlan, recheck: ReadPlan,
                            reloadRead: ReadPlan, reloadMark: MarkPlan)
    requires StoreOk(v.store) && QuietRead(read) && NeedsResync(CheckSync(v.mem, All(v.store))) && QuietRead(recheck)
    requires var repaired := Repair(v, CheckSync(v.mem, All(v.store)), parses, mark);
      !repaired.failed && StoreOk(repaired.view.store)
    ensures var repaired := Repair(v, CheckSync(v.mem, All(v.store)), parses, mark);
      EnforceSync(v, parses, read, mark, recheck, reloadRead, reloadMark) ==
      if NeedsResync(CheckSync(repaired.view.mem, All(repaired.view.store)))
          then CompleteReload(repaired.view, parses, reloadRead, reloadMark)
      else Called(repaired.view, false)
  {
    hide Valid, CheckSync, NeedsResync, Repair, CompleteReload, MarkAsLoaded;
    var repaired := Repair(v, CheckSync(v.mem, All(v.store)), parses, mark);
    assert ReadStore(v, read) == v && ReadStore(repaired.view, recheck) == repaired.view;
  }

  lemma EnforceKeepsMatch(v: View, parses: string -> bool, read: ReadPlan, mark: MarkPlan, recheck: ReadPlan,
                          reloadRead: ReadPlan, reloadMark: MarkPlan)
    requires Sound(v, parses) && !mark.fails && !reloadMark.fails
    ensures StoreOk(v.store) &&
            (JobsMatch(v) ==> JobsMatch(EnforceSync(v, parses, read, mark, recheck, reloadRead, reloadMark).view))
  {
    hide Valid, EnforceSync, JobsMatch, Contained, CleanAgrees, LostNothing;
    EnforceKeeps(v, parses, read, mark, recheck, reloadRead, reloadMark);
  }

  lemma SameDocsReflexive(s: RecurringStore)
    requires StoreOk(s)
    ensures SameDocs(s, s)
  {
  }

  /** Correcting what is already in step changes nothing, for one id. */
  lemma CorrectingInSyncAt(v: View, v2: View, parses: string -> bool, id: RecurringId)
    requires InSync(v, parses) && CorrectedAt(v, v2, parses, id)
    ensures id in v2.mem <==> id in v.mem
    ensures id in v.mem ==> v2.mem[id] == v.mem[id]
    ensures id in v2.jobs <==> id in v.jobs
    ensures id in v.jobs ==> v2.jobs[id] == v.jobs[id]
  {
    hide Valid, Parsing, OutOfStep, UndeletedIds, Runnable;
    InSyncIsInStep(v, parses);
    assert id in v.jobs.Keys <==> id in v.jobs;
  }

  /** Repairing what is already in step changes nothing. */
  lemma RepairingInSyncIsIdle(v: View, parses: string -> bool, mark: MarkPlan)
    requires Sound(v, parses) && InSync(v, parses)
    ensures Repair(v, CheckSync(v.mem, All(v.store)), parses, mark) == Called(v, false)
    ensures NeedsResync(CheckSync(v.mem, All(v.store))) <==> Runnable(v.store, parses) != UndeletedIds(v.store)
  {
    hide Valid, MemGenuine, MemParses, CleanParses, Lists, CheckSync, NeedsResync, ToResync, Scheduled, Corrected;
    hide AgreesAt, CorrectedAt, OutOfStep, Parsing, UndeletedIds, Runnable, Ready, JobsReady;
    var s, c := v.store, CheckSync(v.mem, All(v.store));
    NeedsResyncExactlyWhen(s, v.mem);
    InSyncIsInStep(v, parses);
    RunnableAreUndeleted(s, parses);
    forall id | id in UndeletedIds(s)
      ensures id in UndeletedIds(s) - Runnable(s, parses) || id in Runnable(s, parses)
    {
    }
    NothingToRepair(v, parses);
    var v2 := Corrected(v, c, parses);
    forall id
      ensures id in v2.mem <==> id in v.mem
      ensures id in v.mem ==> v2.mem[id] == v.mem[id]
      ensures id in v2.jobs <==> id in v.jobs
      ensures id in v.jobs ==> v2.jobs[id] == v.jobs[id]
    {
      CorrectAt(v, parses, id);
      CorrectingInSyncAt(v, v2, parses, id);
    }
    assert v2.mem == v.mem && v2.jobs == v.jobs;
  }

  lemma NothingToRepair(v: View, parses: string -> bool)
    requires Sound(v, parses) && InSync(v, parses)
    ensures var c := CheckSync(v.mem, All(v.store));
      Scheduled(ToResync(c), parses) == [] && Corrected(v, c, parses).store == v.store
  {
    hide Valid, MemGenuine, MemParses, CleanParses, CheckSync, ToResync, Scheduled, OutOfStep, Parsing, UndeletedIds;
    hide Runnable;
    var c := CheckSync(v.mem, All(v.store));
    InSyncIsInStep(v, parses);
    RepairReady(v, parses);
    EmptyList(Scheduled(ToResync(c), parses));
  }

  lemma InSyncIsInStep(v: View, parses: string -> bool)
    requires InSync(v, parses)
    ensures OutOfStep(v.store, v.mem) == UndeletedIds(v.store) - Runnable(v.store, parses)
    ensures Parsing(v.store, OutOfStep(v.store, v.mem), parses) == {}
    ensures v.mem.Keys <= UndeletedIds(v.store)
    ensures v.jobs.Keys !! OutOfStep(v.store, v.mem)
  {
    hide Valid;
    forall id | id in Runnable(v.store, parses)
      ensures v.mem[id].version == v.store.live[id]
    {
      assert AgreesAt(v.store, v.mem, id);
    }
  }

  /** A quiet reload of what is in step writes, unless nothing is runnable. */
  lemma ReloadingInSync(v: View, parses: string -> bool, read: ReadPlan, mark: MarkPlan)
    requires Sound(v, parses) && InSync(v, parses) && QuietRead(read) && QuietMark(mark)
    ensures var c := CompleteReload(v, parses, read, mark);
      if Runnable(v.store, parses) == {} then c == Called(v, false)
      else !c.failed && |c.view.store.log| > |v.store.log|
  {
    hide Valid, MemGenuine, MemParses, CleanParses, CompleteReload, AgreesAt, UndeletedIds, Runnable, Contained;
    QuietReloadSyncsExactlyWhen(v, parses, read, mark);
    var v' := CompleteReload(v, parses, read, mark).view;
    if Runnable(v.store, parses) == {} {
      assert v.mem.Keys == {} && v.jobs.Keys == {} && v'.mem.Keys == {} && v'.jobs.Keys == {};
      assert v.mem == map[] && v.jobs == map[] && v'.mem == map[] && v'.jobs == map[];
    }
  }

  /** Once in step, another run of the enforcer changes nothing, exactly when every undeleted expression
      parses or none does; otherwise it reloads, and writes, every time. */
  lemma EnforcerIsIdleExactlyWhen(v: View, parses: string -> bool, read: ReadPlan, mark: MarkPlan, recheck: ReadPlan,
                                  reloadRead: ReadPlan, reloadMark: MarkPlan)
    requires Sound(v, parses) && InSync(v, parses)
    requires QuietRead(read) && QuietMark(mark) && QuietRead(recheck) && QuietRead(reloadRead) && QuietMark(reloadMark)
    ensures var c := EnforceSync(v, parses, read, mark, recheck, reloadRead, reloadMark);
      var idle := Runnable(v.store, parses) == UndeletedIds(v.store) || Runnable(v.store, parses) == {};
      && !c.failed
      && (c.view == v <==> idle)
      && (|c.view.store.log| > |v.store.log| <==> !idle)
  {
    hide Valid, Sound, InSync, CheckSync, NeedsResync, Repair, CompleteReload, UndeletedIds, Runnable;
    SoundIsOk(v, parses);
    assert ReadStore(v, read) == v && ReadStore(v, recheck) == v;
    RepairingInSyncIsIdle(v, parses, mark);
    ReloadingInSync(v, parses, reloadRead, reloadMark);
  }
}
