/**
The recurring-task manager once nothing else writes: what a full reload and incremental sync reach, and
exactly when that is memory, scheduler and store in step.
*/
module RecurringQuiescence {
  import opened Wrappers
  import opened VersionedStore
  import opened RecurringStore
  import opened RecurringSync
  import opened RecurringListings
  import opened RecurringTheorems
  import opened RecurringRuns
  import opened RecurringMarking

  // ---- a full reload ----

  /** A full reload puts memory, scheduler and store in step, exactly when no job is running that
      neither memory nor an undeleted document accounts for. */
  lemma QuietReloadSyncsExactlyWhen(v: View, parses: string -> bool, read: ReadPlan, mark: MarkPlan)
    requires Sound(v, parses) && QuietRead(read) && QuietMark(mark)
    ensures var c := CompleteReload(v, parses, read, mark);
      && !c.failed && SameDocs(v.store, c.view.store) && v.store.log <= c.view.store.log
      && (if Runnable(v.store, parses) == {} then c.view.store == v.store else |c.view.store.log| > |v.store.log|)
      && c.view.mem.Keys == Runnable(v.store, parses)
      && c.view.jobs.Keys == Runnable(v.store, parses) + (v.jobs.Keys - v.mem.Keys - UndeletedIds(v.store))
      && (forall id :: id in Runnable(v.store, parses) ==> id in c.view.store.live && Clean(c.view.store, id))
      && MemoryInStep(c.view, parses)
      && (InSync(c.view, parses) <==> v.jobs.Keys <= v.mem.Keys + UndeletedIds(v.store))
  {
    hide Valid, MarkAsLoaded, MemGenuine, MemParses, CleanParses, CleanAgrees, AgreesAt, Lists, QuietlyMarked, SameDocs;
    hide Scheduled, Clean, UndeletedIds, Runnable, Ready, JobsReady, All, DistinctIds, Contained, Alive, InSync;
    hide MemoryInStep;
    var s, v1 := v.store, StopAll(v);
    StopKeeps(v, parses);
    assert ReadStore(v1, read) == v1;
    ReloadReady(v1, parses);
    RunnableAreUndeleted(s, parses);
    UndeletedAreLive(s);
    var v2, loaded, ids := Rescheduled(v1, parses), Scheduled(All(s), parses), Runnable(s, parses);
    assert v2.store == s && v2.mem == map[];
    hide Rescheduled;
    QuietListing(v2, loaded, ids, mark);
    var c := MarkAsLoaded(v2, loaded, mark);
    MarkingKeepsDocs(v2, c.view, ids, parses);
    ReloadedMemory(v2, c.view, parses);
    forall id | id in ids
      ensures id in c.view.store.live && Clean(c.view.store, id)
    {
      MarkedIsClean(v2, c.view, ids, id);
    }
    assert v1.jobs.Keys == v.jobs.Keys - v.mem.Keys;
    ReloadKeepsContained(v, parses, read, mark);
    InSyncExactlyWhen(c.view, parses, v.jobs.Keys - v.mem.Keys - UndeletedIds(s));
    Leftover(v.jobs.Keys, v.mem.Keys, UndeletedIds(s));
  }

  lemma MarkedIsClean(v: View, v': View, ids: set<RecurringId>, id: RecurringId)
    requires StoreOk(v.store) && StoreOk(v'.store) && v'.store.live.Keys == v.store.live.Keys
               && ids <= v.store.live.Keys
    requires QuietlyMarked(v, v', ids, id) && id in ids
    ensures Clean(v'.store, id)
  {
  }

  lemma ReloadKeepsContained(v: View, parses: string -> bool, read: ReadPlan, mark: MarkPlan)
    requires Sound(v, parses)
    ensures Contained(CompleteReload(v, parses, read, mark).view)
  {
    hide Valid, CompleteReload, Contained, MemGenuine, MemParses, CleanParses, CleanAgrees, JobsMatch, LostNothing;
    ReloadKeeps(v, parses, read, mark);
  }

  /** With memory complete and everything in it scheduled, only a job too many can be out of step. */
  lemma InSyncExactlyWhen(v: View, parses: string -> bool, extra: set<RecurringId>)
    requires StoreOk(v.store) && Contained(v) && v.mem.Keys == Runnable(v.store, parses)
    requires forall id :: id in v.mem ==> id in v.store.live && AgreesAt(v.store, v.mem, id)
    requires v.jobs.Keys == Runnable(v.store, parses) + extra && extra !! Runnable(v.store, parses)
    ensures MemoryInStep(v, parses)
    ensures InSync(v, parses) <==> extra == {}
  {
    hide Valid;
    if extra == {} {
      assert v.jobs.Keys == v.mem.Keys;
      forall id | id in v.jobs
        ensures v.jobs[id].body == LiveDoc(v.store, id).body
      {
        assert id in v.mem && AgreesAt(v.store, v.mem, id);
      }
    } else {
      var id :| id in extra;
      assert id in v.jobs.Keys;
    }
  }

  lemma Leftover(jobs: set<RecurringId>, mem: set<RecurringId>, undeleted: set<RecurringId>)
    ensures jobs - mem - undeleted == {} <==> jobs <= mem + undeleted
  {
    forall id | id in jobs
      ensures id in jobs - mem - undeleted || id in mem + undeleted
    {
    }
  }

  lemma UndeletedAreLive(s: RecurringStore)
    requires StoreOk(s)
    ensures UndeletedIds(s) <= s.live.Keys
  {
  }

  lemma RunnableAreUndeleted(s: RecurringStore, parses: string -> bool)
    requires StoreOk(s)
    ensures Runnable(s, parses) <= UndeletedIds(s)
  {
  }

  lemma ReloadedMemory(v: View, v': View, parses: string -> bool)
    requires StoreOk(v.store) && StoreOk(v'.store) && v'.store.live.Keys == v.store.live.Keys
    requires v.mem == map[] && forall id :: QuietlyMarked(v, v', Runnable(v.store, parses), id)
    ensures v'.mem.Keys == Runnable(v.store, parses)
    ensures forall id :: id in v'.mem ==> AgreesAt(v'.store, v'.mem, id)
  {
    hide Valid;
    forall id
      ensures id in v'.mem <==> id in Runnable(v.store, parses)
      ensures id in v'.mem ==> AgreesAt(v'.store, v'.mem, id)
    {
      assert QuietlyMarked(v, v', Runnable(v.store, parses), id);
    }
  }

  // ---- incremental sync ----

  /** Memory will still agree with the document under id after a sync that was shown seen. */
  ghost predicate StaysAgreed(v: View, seen: seq<RecurringTask>, parses: string -> bool, id: RecurringId)
    requires StoreOk(v.store) && id in v.store.live
  {
    if id in IdsOf(seen) then
      && LiveDoc(v.store, id).isDeleted
      && forall t :: t in seen && t.id == id ==> t.isDeleted || !parses(t.body.expression)
    else AgreesAt(v.store, v.mem, id)
  }

  /** One id after a quiet sync that was shown dirty copies, current or not: a clean document is as it was
      and memory agrees with it exactly when StaysAgreed; a dirty one is agreed with if it was cleaned. */
  lemma SeenSyncAt(v: View, seen: seq<RecurringTask>, parses: string -> bool, mark: MarkPlan, id: RecurringId)
    requires Sound(v, parses) && QuietMark(mark) && id in v.store.live
    requires DistinctIds(seen) && PastCopies(v.store, seen) && forall t :: t in seen ==> t.loadedAt == None
    ensures var v' := MarkAsLoaded(Refreshed(v, seen, parses), ToAck(seen, parses), mark).view;
      && StoreOk(v'.store) && id in v'.store.live
      && (Clean(v.store, id) ==>
            Clean(v'.store, id) && (AgreesAt(v'.store, v'.mem, id) <==> StaysAgreed(v, seen, parses, id)))
      && (!Clean(v.store, id) && Clean(v'.store, id) ==> AgreesAt(v'.store, v'.mem, id))
  {
    hide Valid, MarkAsLoaded, MemGenuine, MemParses, CleanParses, Contained, Ready, PastCopies, DistinctIds, ToAck;
    var v1, acked := Refreshed(v, seen, parses), ToAck(seen, parses);
    assert v1.store == v.store;
    RefreshAt(v, seen, parses, id);
    hide Refreshed;
    SyncReady(v, seen, parses);
    AckedAre(seen, parses);
    QuietMarking(v1, acked, mark);
    var v' := MarkAsLoaded(v1, acked, mark).view;
    if id in IdsOf(seen) {
      var t :| t in seen && t.id == id;
      PastAt(v.store, seen, t);
      forall u | u in seen && u.id == id
        ensures u == t
      {
        SameIdSameCopy(seen, t, u);
      }
      if t in acked {
        assert QuietItem(v1, v', t);
      } else {
        assert id !in IdsOf(acked) && Untouched(v1, v', id);
      }
    } else {
      assert id !in IdsOf(acked) && Untouched(v1, v', id);
    }
  }

  lemma PastAt(s: RecurringStore, ts: seq<RecurringTask>, t: RecurringTask)
    requires PastCopies(s, ts) && t in ts
    ensures t.id in s.live && t.version < |s.log| && t == PastCopy(s, t.version)
  {
  }

  /** What a quiet sync leaves in agreement, whatever its search returned: exactly when memory agreed with
      each clean document it was not shown, and each clean document it was shown an old copy of is deleted
      and that copy is not scheduled. */
  lemma SyncAgreesExactlyWhen(v: View, parses: string -> bool, read: ReadPlan, mark: MarkPlan)
    requires Sound(v, parses) && QuietMark(mark) && !read.fails && read.before == []
    ensures StoreOk(v.store)
    ensures CleanAgrees(SyncNotLoaded(v, parses, read, mark).view) <==>
            forall id :: id in v.store.live && Clean(v.store, id) ==>
                StaysAgreed(v, SeenNotLoaded(v.store, read), parses, id)
  {
    hide Valid, MarkAsLoaded, MemGenuine, MemParses, CleanParses, Contained, Refreshed, ToAck, SeenNotLoaded;
    hide PastCopies, StaysAgreed, AgreesAt, Clean, DistinctIds;
    assert ReadStore(v, read) == v;
    var seen := SeenNotLoaded(v.store, read);
    SeenArePast(v.store, read);
    SeenAreDirty(v.store, read);
    SyncReady(v, seen, parses);
    var v1 := Refreshed(v, seen, parses);
    assert v1.store == v.store by { RefreshedStore(v, seen, parses); }
    QuietMarking(v1, ToAck(seen, parses), mark);
    var v' := SyncNotLoaded(v, parses, read, mark).view;
    forall id | id in v.store.live
      ensures id in v'.store.live
      ensures Clean(v.store, id) ==>
                Clean(v'.store, id) && (AgreesAt(v'.store, v'.mem, id) <==> StaysAgreed(v, seen, parses, id))
      ensures !Clean(v.store, id) && Clean(v'.store, id) ==> AgreesAt(v'.store, v'.mem, id)
    {
      SeenSyncAt(v, seen, parses, mark, id);
    }
  }

  lemma RefreshedStore(v: View, seen: seq<RecurringTask>, parses: string -> bool)
    ensures Refreshed(v, seen, parses).store == v.store
  {
  }

  lemma SeenAreDirty(s: RecurringStore, read: ReadPlan)
    requires StoreOk(s)
    ensures forall t :: t in SeenNotLoaded(s, read) ==> t.loadedAt == None
    ensures read.unrefreshed == None ==> IdsOf(SeenNotLoaded(s, read)) == DirtyIds(s)
  {
    match read.unrefreshed
    case None =>
      ListingsList(s);
      forall t | t in NotLoaded(s)
        ensures t.loadedAt == None
      {
        InList(s, NotLoaded(s), DirtyIds(s), t);
      }
    case Some(candidates) => StaleHitsArePast(s, candidates);
  }

  /** Incremental sync never repairs: after a search of a refreshed index, memory agrees with every clean
      document exactly if it did before. */
  lemma SyncRepairsNothing(v: View, parses: string -> bool, read: ReadPlan, mark: MarkPlan)
    requires Sound(v, parses) && QuietRead(read) && QuietMark(mark)
    ensures CleanAgrees(SyncNotLoaded(v, parses, read, mark).view) <==> CleanAgrees(v)
  {
    hide Valid, SyncNotLoaded, MemGenuine, MemParses, CleanParses, Contained, SeenNotLoaded;
    SyncAgreesExactlyWhen(v, parses, read, mark);
    SeenAreDirty(v.store, read);
    forall id | id in v.store.live && Clean(v.store, id)
      ensures StaysAgreed(v, SeenNotLoaded(v.store, read), parses, id) <==> AgreesAt(v.store, v.mem, id)
    {
    }
  }

  /** What a quiet sync of a refreshed index does to one id. */
  ghost predicate SyncedAt(v: View, v': View, parses: string -> bool, id: RecurringId)
    requires StoreOk(v.store) && StoreOk(v'.store) && v'.store.live.Keys == v.store.live.Keys
  {
    if id in DirtyIds(v.store) then
      && (id in v'.mem <==> id in Runnable(v.store, parses)) && (id in v'.jobs <==> id in Runnable(v.store, parses))
      && (id in v'.mem ==> AgreesAt(v'.store, v'.mem, id))
      && (Clean(v'.store, id) || (!LiveDoc(v'.store, id).isDeleted && !parses(LiveDoc(v'.store, id).body.expression)))
    else
      && Untouched(v, v', id) && (id in v'.jobs <==> id in v.jobs)
  }

  lemma QuietSyncAt(v: View, parses: string -> bool, mark: MarkPlan)
    requires Sound(v, parses) && QuietMark(mark)
    ensures var seen := NotLoaded(v.store);
      var c := MarkAsLoaded(Refreshed(v, seen, parses), ToAck(seen, parses), mark);
      && !c.failed && SameDocs(v.store, c.view.store)
      && forall id :: SyncedAt(v, c.view, parses, id)
  {
    hide Valid, MarkAsLoaded, MemGenuine, MemParses, CleanParses, CleanAgrees, Contained, Ready, ToAck, PastCopies;
    hide Lists, AgreesAt, SameDocs, JobsMatch, JobsReady;
    var s, seen := v.store, NotLoaded(v.store);
    ListingsList(s);
    ListedOnce(s, seen, DirtyIds(s));
    CurrentIsPast(s, seen);
    SyncReady(v, seen, parses);
    AckedLists(s, parses);
    var v1, ids := Refreshed(v, seen, parses), Acked(s, parses);
    RefreshedStore(v, seen, parses);
    QuietListing(v1, ToAck(seen, parses), ids, mark);
    var v' := MarkAsLoaded(v1, ToAck(seen, parses), mark).view;
    MarkingKeepsDocs(v1, v', ids, parses);
    forall id
      ensures SyncedAt(v, v', parses, id)
    {
      RefreshAt(v, seen, parses, id);
      if id in DirtyIds(s) { ListsPast(s, seen, DirtyIds(s)); }
      SyncedOne(v, v1, v', seen, parses, id);
    }
  }

  lemma ListedOnce(s: RecurringStore, ts: seq<RecurringTask>, ids: set<RecurringId>)
    requires Lists(s, ts, ids)
    ensures DistinctIds(ts) && CurrentCopies(s, ts) && IdsOf(ts) == ids
  {
  }

  lemma SyncedOne(v: View, v1: View, v': View, seen: seq<RecurringTask>, parses: string -> bool, id: RecurringId)
    requires StoreOk(v.store) && v1.store == v.store && SameDocs(v.store, v'.store) && v'.jobs == v1.jobs
    requires IdsOf(seen) == DirtyIds(v.store)
    requires id in DirtyIds(v.store) ==> forall t :: t in seen ==> t.id in v.store.live && t == CopyOf(v.store, t.id)
    requires RefreshedAt(v, v1, seen, parses, id) && QuietlyMarked(v1, v', Acked(v.store, parses), id)
    ensures SyncedAt(v, v', parses, id)
  {
    hide Valid, IdsOf;
  }

  /** Incremental sync puts memory, scheduler and store in step, exactly when memory agreed with every
      clean document and the jobs had the same clean ids as memory. Nothing is left unseen but definitions
      that do not parse. */
  lemma QuietSyncSyncsExactlyWhen(v: View, parses: string -> bool, read: ReadPlan, mark: MarkPlan)
    requires Sound(v, parses) && QuietRead(read) && QuietMark(mark)
    ensures var c := SyncNotLoaded(v, parses, read, mark);
      && !c.failed && SameDocs(v.store, c.view.store)
      && (InSync(c.view, parses) <==>
            CleanAgrees(v) && v.jobs.Keys - DirtyIds(v.store) == v.mem.Keys - DirtyIds(v.store))
      && (forall id :: id in c.view.store.live ==>
            || Clean(c.view.store, id)
            || (!LiveDoc(c.view.store, id).isDeleted && !parses(LiveDoc(c.view.store, id).body.expression)))
  {
    hide Valid, MarkAsLoaded, MemGenuine, MemParses, CleanParses, SameDocs, Contained, Refreshed, ToAck, NotLoaded;
    hide InSync, CleanAgrees, DirtyIds, Clean, SyncedAt, Runnable;
    assert ReadStore(v, read) == v;
    QuietSyncAt(v, parses, mark);
    var c := SyncNotLoaded(v, parses, read, mark);
    SyncKeepsSound(v, parses, read, mark);
    SyncedSeen(v, c.view, parses);
    if CleanAgrees(v) && v.jobs.Keys - DirtyIds(v.store) == v.mem.Keys - DirtyIds(v.store) {
      SyncedInSync(v, c.view, parses);
    }
    if InSync(c.view, parses) { InSyncWasAgreed(v, c.view, parses); }
  }

  lemma SyncKeepsSound(v: View, parses: string -> bool, read: ReadPlan, mark: MarkPlan)
    requires Sound(v, parses)
    ensures Sound(SyncNotLoaded(v, parses, read, mark).view, parses)
  {
    hide Valid, SyncNotLoaded, MemGenuine, MemParses, CleanParses, CleanAgrees, Contained, JobsMatch, LostNothing;
    SyncKeeps(v, parses, read, mark);
  }

  lemma SyncedSeen(v: View, v': View, parses: string -> bool)
    requires SameDocs(v.store, v'.store) && forall id :: SyncedAt(v, v', parses, id)
    ensures StoreOk(v'.store)
    ensures forall id :: id in v'.store.live ==>
              || Clean(v'.store, id)
              || (!LiveDoc(v'.store, id).isDeleted && !parses(LiveDoc(v'.store, id).body.expression))
  {
    hide Valid, AgreesAt, Runnable;
    forall id | id in v'.store.live
      ensures || Clean(v'.store, id)
              || (!LiveDoc(v'.store, id).isDeleted && !parses(LiveDoc(v'.store, id).body.expression))
    {
      assert SyncedAt(v, v', parses, id);
    }
  }

  lemma SyncedInSync(v: View, v': View, parses: string -> bool)
    requires Sound(v, parses) && CleanAgrees(v) && Sound(v', parses) && SameDocs(v.store, v'.store)
    requires forall id :: SyncedAt(v, v', parses, id)
    requires v.jobs.Keys - DirtyIds(v.store) == v.mem.Keys - DirtyIds(v.store)
    ensures InSync(v', parses)
  {
    hide Valid, Runnable, DirtyIds;
    SameDocsRunTheSame(v.store, v'.store, parses);
    forall id
      ensures id in v'.mem <==> id in Runnable(v.store, parses)
      ensures id in v'.jobs <==> id in Runnable(v.store, parses)
      ensures id in v'.mem ==> id in v'.store.live && AgreesAt(v'.store, v'.mem, id)
    {
      SyncedMemoryAt(v, v', parses, id);
      assert id in v.jobs.Keys - DirtyIds(v.store) <==> id in v.mem.Keys - DirtyIds(v.store);
    }
    RunningIsStored(v', parses);
  }

  lemma RunningIsStored(v: View, parses: string -> bool)
    requires StoreOk(v.store) && Contained(v) && v.mem.Keys == v.jobs.Keys
    requires forall id :: id in v.mem ==> id in v.store.live && AgreesAt(v.store, v.mem, id)
    ensures forall id :: id in v.jobs ==> id in v.store.live && v.jobs[id].body == LiveDoc(v.store, id).body
  {
    hide Valid;
    forall id | id in v.jobs
      ensures id in v.store.live && v.jobs[id].body == LiveDoc(v.store, id).body
    {
      assert id in v.mem.Keys;
    }
  }

  lemma SyncedMemoryAt(v: View, v': View, parses: string -> bool, id: RecurringId)
    requires Sound(v, parses) && CleanAgrees(v) && SameDocs(v.store, v'.store) && SyncedAt(v, v', parses, id)
    ensures id in v'.mem <==> id in Runnable(v.store, parses)
    ensures id in v'.mem ==> id in v'.store.live && AgreesAt(v'.store, v'.mem, id)
    ensures if id in DirtyIds(v.store) then id in v'.jobs <==> id in Runnable(v.store, parses)
            else (id in v'.jobs <==> id in v.jobs) && (id in v.mem <==> id in Runnable(v.store, parses))
  {
    hide Valid;
    if id in v.mem { assert GenuineAt(v.store, v.mem[id], id); }
  }

  lemma InSyncWasAgreed(v: View, v': View, parses: string -> bool)
    requires Sound(v, parses) && InSync(v', parses) && SameDocs(v.store, v'.store)
    requires forall id :: SyncedAt(v, v', parses, id)
    ensures CleanAgrees(v) && v.jobs.Keys - DirtyIds(v.store) == v.mem.Keys - DirtyIds(v.store)
  {
    hide Valid;
    SameDocsRunTheSame(v.store, v'.store, parses);
    forall id | id in v.store.live && Clean(v.store, id)
      ensures AgreesAt(v.store, v.mem, id)
    {
      assert SyncedAt(v, v', parses, id);
      assert id in v'.mem.Keys <==> id in Runnable(v'.store, parses);
    }
    forall id
      ensures id in v.jobs.Keys - DirtyIds(v.store) <==> id in v.mem.Keys - DirtyIds(v.store)
    {
      assert SyncedAt(v, v', parses, id);
      assert id in v'.mem.Keys <==> id in v'.jobs.Keys;
    }
  }

  lemma SameDocsRunTheSame(s: RecurringStore, s': RecurringStore, parses: string -> bool)
    requires SameDocs(s, s')
    ensures UndeletedIds(s) == UndeletedIds(s') && Runnable(s, parses) == Runnable(s', parses)
  {
    hide Valid;
  }

  /** Incremental sync refines the full reload: from where an undisturbed manager is, both end with
      memory, scheduler and store in step, with the same ids and the same definitions running. */
  lemma SyncReachesWhatReloadReaches(v: View, parses: string -> bool, read: ReadPlan, mark: MarkPlan,
                                     reloadRead: ReadPlan, reloadMark: MarkPlan)
    requires Sound(v, parses) && CleanAgrees(v) && JobsMatch(v)
    requires QuietRead(read) && QuietMark(mark) && QuietRead(reloadRead) && QuietMark(reloadMark)
    ensures var a, b :=
              SyncNotLoaded(v, parses, read, mark).view, CompleteReload(v, parses, reloadRead, reloadMark).view;
      && InSync(a, parses) && InSync(b, parses)
      && a.mem.Keys == b.mem.Keys == a.jobs.Keys == b.jobs.Keys == Runnable(v.store, parses)
      && forall id :: id in a.mem ==>
           a.mem[id].body == b.mem[id].body == a.jobs[id].body == b.jobs[id].body == LiveDoc(v.store, id).body
  {
    hide Valid, MarkAsLoaded, GenuineAt, CleanParses, CleanAgrees, SyncNotLoaded, CompleteReload, LostNothing;
    QuietSyncSyncsExactlyWhen(v, parses, read, mark);
    QuietReloadSyncsExactlyWhen(v, parses, reloadRead, reloadMark);
    var a, b := SyncNotLoaded(v, parses, read, mark).view, CompleteReload(v, parses, reloadRead, reloadMark).view;
    SameDocsRunTheSame(v.store, a.store, parses);
    SameDocsRunTheSame(v.store, b.store, parses);
  }
}
