/**
The recurring-task manager over whole runs: API users write, this manager's two functions are called
with whatever failures, and while it does not lead another manager marks documents.
*/
module RecurringRuns {
  import opened VersionedStore
  import opened RecurringStore
  import opened RecurringSync
  import opened RecurringListings
  import opened RecurringTheorems

  // ---- each call ----

  /** What holds of a view whatever fails. */
  ghost predicate Sound(v: View, parses: string -> bool) {
    StoreOk(v.store) && Contained(v) && MemGenuine(v) && MemParses(v, parses) && CleanParses(v.store, parses)
  }

  lemma SoundIsOk(v: View, parses: string -> bool)
    requires Sound(v, parses)
    ensures StoreOk(v.store)
  {
  }

  lemma ReadKeeps(v: View, read: ReadPlan, parses: string -> bool)
    requires Sound(v, parses)
    ensures var v' := ReadStore(v, read);
      && v'.mem == v.mem && v'.jobs == v.jobs
      && Sound(v', parses)
      && (CleanAgrees(v) ==> CleanAgrees(v'))
  {
    hide Valid, MemGenuine, CleanAgrees, CleanParses, OnlyDirtied;
    ApiAllOnlyDirties(v.store, read.before);
    ApiKeepsAgreement(v, AfterApiAll(v.store, read.before), parses);
  }

  lemma MarkKeepsSound(v: View, loaded: seq<RecurringTask>, plan: MarkPlan, parses: string -> bool)
    requires Sound(v, parses) && Ready(v, loaded)
    requires forall t :: t in loaded ==> t.isDeleted || parses(t.body.expression)
    ensures Sound(MarkAsLoaded(v, loaded, plan).view, parses)
    ensures (plan.fails ==> loaded == []) && JobsReady(v, loaded) ==> JobsMatch(MarkAsLoaded(v, loaded, plan).view)
  {
    hide Valid, MarkItems, AfterApiAll, Remembered, Select, MemGenuine, MemParses, Contained, JobsMatch, JobsReady;
    hide CleanParses, CleanAgrees, PastCopies;
    ReadyMark(v, loaded, plan);
    MarkAsLoadedKeepsStoreOk(v, loaded, plan);
    MarkKeepsMemParses(v, loaded, plan, parses);
    var ms := MarkedAll(loaded, plan.at);
    forall i | 0 <= i < |ms|
      ensures ms[i].isDeleted || parses(ms[i].body.expression)
    {
      assert loaded[i] in loaded && ms[i] == Marked(loaded[i], plan.at);
    }
    MarkKeepsCleanParses(v.store, ms, plan, parses);
    ApiAllOnlyDirties(v.store, plan.before(0));
    ApiKeepsAgreement(v, AfterApiAll(v.store, plan.before(0)), parses);
  }

  lemma StopKeeps(v: View, parses: string -> bool)
    requires Sound(v, parses)
    ensures Sound(StopAll(v), parses)
    ensures JobsMatch(v) ==> StopAll(v).jobs == map[]
  {
    hide Valid;
  }

  /** Marking a listing of current copies, when memory agrees with the clean documents outside it. */
  lemma ReadyAgrees(v: View, loaded: seq<RecurringTask>, ids: set<RecurringId>, plan: MarkPlan)
    requires Ready(v, loaded) && Lists(v.store, loaded, ids) && !plan.fails && LostNothing(plan)
    requires forall id :: id in v.store.live && id !in ids && Clean(v.store, id) ==> AgreesAt(v.store, v.mem, id)
    ensures CleanAgrees(MarkAsLoaded(v, loaded, plan).view)
  {
    hide Valid, MarkAsLoaded;
    MarkAgrees(v, loaded, plan);
  }

  lemma ListedParse(s: RecurringStore, loaded: seq<RecurringTask>, ids: set<RecurringId>, parses: string -> bool)
    requires StoreOk(s) && ids <= Runnable(s, parses) && Lists(s, loaded, ids)
    ensures forall t :: t in loaded ==> parses(t.body.expression)
  {
    hide Valid;
    forall t | t in loaded
      ensures parses(t.body.expression)
    {
      InList(s, loaded, ids, t);
    }
  }

  lemma ReloadKeeps(v: View, parses: string -> bool, read: ReadPlan, mark: MarkPlan)
    requires Sound(v, parses)
    ensures var c := CompleteReload(v, parses, read, mark);
      && Sound(c.view, parses)
      && (JobsMatch(v) && !mark.fails ==> JobsMatch(c.view))
      && (!read.fails && !mark.fails && LostNothing(mark) ==> CleanAgrees(c.view))
  {
    hide Valid, MarkAsLoaded, ReadStore, Lists, LostNothing, Ready, MemGenuine, MemParses, CleanParses, Contained;
    hide CleanAgrees, Runnable, Scheduled, All, AgreesAt, UndeletedIds;
    StopKeeps(v, parses);
    var v1 := ReadStore(StopAll(v), read);
    ReadKeeps(StopAll(v), read, parses);
    MatchIsKept(StopAll(v), v1);
    if JobsMatch(v) { StoppedMatch(v); }
    if !read.fails {
      ReloadReady(v1, parses);
      var v2, loaded, ids := Rescheduled(v1, parses), Scheduled(All(v1.store), parses), Runnable(v1.store, parses);
      ListedParse(v1.store, loaded, ids, parses);
      EmptyMemory(v1, v2, parses);
      MarkKeepsSound(v2, loaded, mark, parses);
      if !mark.fails && LostNothing(mark) {
        ReadyAgrees(v2, loaded, ids, mark);
      }
    }
  }

  /** An empty memory is sound, and agrees with every clean document that is not runnable. */
  lemma EmptyMemory(v: View, v': View, parses: string -> bool)
    requires Sound(v, parses) && v'.store == v.store && v'.mem == map[]
    ensures Sound(v', parses)
    ensures forall id :: id in v.store.live && id !in Runnable(v.store, parses) && Clean(v.store, id) ==>
              AgreesAt(v.store, v'.mem, id)
  {
    hide Valid;
  }

  /** Between the read and the mark, incremental sync has only touched what it was shown. */
  lemma RefreshKeepsAgreement(v: View, parses: string -> bool)
    requires StoreOk(v.store) && CleanAgrees(v)
    ensures CleanAgrees(Refreshed(v, NotLoaded(v.store), parses))
  {
    hide Valid;
    var seen := NotLoaded(v.store);
    var v' := Refreshed(v, seen, parses);
    ListingsAreCurrent(v.store);
    forall id | id in v.store.live && Clean(v.store, id)
      ensures AgreesAt(v.store, v'.mem, id)
    {
      RefreshAt(v, seen, parses, id);
    }
  }

  lemma RefreshKeepsSound(v: View, seen: seq<RecurringTask>, parses: string -> bool)
    requires Sound(v, parses) && DistinctIds(seen) && PastCopies(v.store, seen)
    ensures Sound(Refreshed(v, seen, parses), parses)
  {
    hide Valid, GenuineAt, PastCopies;
    SyncReady(v, seen, parses);
    var v' := Refreshed(v, seen, parses);
    forall id | id in v'.mem
      ensures GenuineAt(v'.store, v'.mem[id], id) && parses(v'.mem[id].body.expression)
    {
      RefreshAt(v, seen, parses, id);
    }
  }

  /** Incremental sync, whatever its search returns; agreement needs a search of a refreshed index. */
  lemma SyncKeeps(v: View, parses: string -> bool, read: ReadPlan, mark: MarkPlan)
    requires Sound(v, parses)
    ensures var c := SyncNotLoaded(v, parses, read, mark);
      && Sound(c.view, parses)
      && (JobsMatch(v) && !mark.fails ==> JobsMatch(c.view))
      && (CleanAgrees(v) && (read.fails || read.unrefreshed.None?) && LostNothing(mark) ==>
            (mark.fails && mark.tookEffect) || CleanAgrees(c.view))
  {
    hide Valid, MarkAsLoaded, ReadStore, Lists, LostNothing, Refreshed, ToAck, MemGenuine, MemParses, CleanParses;
    hide Ready, PastCopies, SeenNotLoaded, JobsMatch, JobsReady, CleanAgrees;
    var v1 := ReadStore(v, read);
    ReadKeeps(v, read, parses);
    MatchIsKept(v, v1);
    if !read.fails {
      var seen := SeenNotLoaded(v1.store, read);
      SeenArePast(v1.store, read);
      SyncReady(v1, seen, parses);
      RefreshKeepsSound(v1, seen, parses);
      AckedAre(seen, parses);
      MarkKeepsSound(Refreshed(v1, seen, parses), ToAck(seen, parses), mark, parses);
      if CleanAgrees(v) && read.unrefreshed.None? && LostNothing(mark) && !(mark.fails && mark.tookEffect) {
        SeenCurrent(v1.store, read);
        CurrentSyncAgrees(v1, parses, mark);
      }
    }
  }

  lemma StoppedMatch(v: View)
    requires JobsMatch(v)
    ensures JobsMatch(StopAll(v)) && StopAll(v).jobs == map[]
  {
  }

  lemma MatchIsKept(v: View, v': View)
    requires v'.mem == v.mem && v'.jobs == v.jobs
    ensures JobsMatch(v) <==> JobsMatch(v')
  {
  }

  lemma SeenCurrent(s: RecurringStore, read: ReadPlan)
    requires StoreOk(s) && read.unrefreshed.None?
    ensures SeenNotLoaded(s, read) == NotLoaded(s)
  {
  }

  lemma CurrentSyncAgrees(v: View, parses: string -> bool, mark: MarkPlan)
    requires Sound(v, parses) && CleanAgrees(v) && LostNothing(mark) && !(mark.fails && mark.tookEffect)
    ensures var seen := NotLoaded(v.store);
      CleanAgrees(MarkAsLoaded(Refreshed(v, seen, parses), ToAck(seen, parses), mark).view)
  {
    hide Valid, MarkAsLoaded, Lists, LostNothing, ToAck, MemGenuine, MemParses, CleanParses, Ready, PastCopies;
    hide Contained;
    var seen := NotLoaded(v.store);
    var v2, acked := Refreshed(v, seen, parses), ToAck(seen, parses);
    assert v2.store == v.store;
    hide Refreshed;
    ListingsAreCurrent(v.store);
    CurrentIsPast(v.store, seen);
    SyncReady(v, seen, parses);
    RefreshKeepsAgreement(v, parses);
    if !mark.fails {
      AckedLists(v.store, parses);
      ReadyAgrees(v2, acked, Acked(v.store, parses), mark);
    } else {
      WithoutEffect(v2, acked, mark, parses);
    }
  }

  /** A MarkLoaded that fails and has no effect leaves agreement as it was. */
  lemma WithoutEffect(v: View, loaded: seq<RecurringTask>, plan: MarkPlan, parses: string -> bool)
    requires CleanAgrees(v) && plan.fails && !plan.tookEffect
    ensures CleanAgrees(MarkAsLoaded(v, loaded, plan).view)
  {
    hide Valid, AfterApiAll, MarkItems;
    ApiAllOnlyDirties(v.store, plan.before(0));
    ApiKeepsAgreement(v, AfterApiAll(v.store, plan.before(0)), parses);
  }

  /** After correcting, memory agrees with every clean document outside the list to be marked. */
  lemma CorrectedAgrees(v: View, parses: string -> bool, id: RecurringId)
    requires Sound(v, parses)
    requires id in v.store.live && id !in Parsing(v.store, OutOfStep(v.store, v.mem), parses) && Clean(v.store, id)
    ensures AgreesAt(v.store, Corrected(v, CheckSync(v.mem, All(v.store)), parses).mem, id)
  {
    hide Valid, CheckSync, Corrected;
    CorrectAt(v, parses, id);
    if id in v.mem { assert GenuineAt(v.store, v.mem[id], id); }
  }

  /** A check that finds nothing means that memory agrees with every document. */
  lemma NothingFoundAgrees(v: View, parses: string -> bool)
    requires Sound(v, parses) && !NeedsResync(CheckSync(v.mem, All(v.store)))
    ensures CleanAgrees(v)
    ensures v.mem.Keys == UndeletedIds(v.store)
  {
    hide Valid, CheckSync, NeedsResync;
    NeedsResyncExactlyWhen(v.store, v.mem);
    forall id | id in v.store.live
      ensures AgreesAt(v.store, v.mem, id)
    {
      assert id !in OutOfStep(v.store, v.mem);
      if id in v.mem { assert GenuineAt(v.store, v.mem[id], id); }
    }
  }

  lemma CorrectKeepsSound(v: View, parses: string -> bool)
    requires Sound(v, parses)
    ensures Sound(Corrected(v, CheckSync(v.mem, All(v.store)), parses), parses)
  {
    hide Valid, GenuineAt, CheckSync, Lists, PastCopies, DistinctIds, Alive;
    RepairReady(v, parses);
    var v' := Corrected(v, CheckSync(v.mem, All(v.store)), parses);
    forall id | id in v'.mem
      ensures GenuineAt(v'.store, v'.mem[id], id) && parses(v'.mem[id].body.expression)
    {
      CorrectAt(v, parses, id);
    }
  }

  lemma RepairKeeps(v: View, parses: string -> bool, mark: MarkPlan)
    requires Sound(v, parses)
    ensures OutOfStep(v.store, v.mem) <= v.store.live.Keys
    ensures var c := Repair(v, CheckSync(v.mem, All(v.store)), parses, mark);
      && Sound(c.view, parses)
      && (c.failed <==> mark.fails && Parsing(v.store, OutOfStep(v.store, v.mem), parses) != {})
      && (JobsMatch(v) && !c.failed ==> JobsMatch(c.view))
      && (!mark.fails && LostNothing(mark) ==> CleanAgrees(c.view))
  {
    hide Valid, MarkAsLoaded, Lists, LostNothing, MemGenuine, MemParses, CleanParses, CheckSync, Scheduled, ToResync;
    hide CleanAgrees, Ready, JobsReady, JobsMatch, Contained, OutOfStep;
    var s, c := v.store, CheckSync(v.mem, All(v.store));
    OutOfStepRunnable(s, v.mem, parses);
    var v1, loaded, ids :=
        Corrected(v, c, parses), Scheduled(ToResync(c), parses), Parsing(s, OutOfStep(s, v.mem), parses);
    assert v1.store == s;
    hide Corrected;
    RepairReady(v, parses);
    CorrectKeepsSound(v, parses);
    ListedParse(s, loaded, ids, parses);
    MarkKeepsSound(v1, loaded, mark, parses);
    ListsPast(s, loaded, ids);
    EmptyList(loaded);
    MarkFailsExactlyWhen(v1, loaded, mark);
    if !mark.fails && LostNothing(mark) {
      forall id | id in s.live && id !in ids && Clean(s, id)
        ensures AgreesAt(s, v1.mem, id)
      {
        CorrectedAgrees(v, parses, id);
      }
      ReadyAgrees(v1, loaded, ids, mark);
    }
  }

  lemma MarkFailsExactlyWhen(v: View, loaded: seq<RecurringTask>, plan: MarkPlan)
    requires StoreOk(v.store)
    ensures MarkAsLoaded(v, loaded, plan).failed <==> plan.fails && loaded != []
  {
    hide Valid, MarkItems;
  }

  lemma OutOfStepRunnable(s: RecurringStore, mem: TaskMap, parses: string -> bool)
    requires StoreOk(s)
    ensures OutOfStep(s, mem) <= UndeletedIds(s)
    ensures UndeletedIds(s) <= s.live.Keys
    ensures Parsing(s, OutOfStep(s, mem), parses) <= Runnable(s, parses)
  {
  }

  lemma EnforceKeeps(v: View, parses: string -> bool, read: ReadPlan, mark: MarkPlan, recheck: ReadPlan,
                     reloadRead: ReadPlan, reloadMark: MarkPlan)
    requires Sound(v, parses)
    ensures var c := EnforceSync(v, parses, read, mark, recheck, reloadRead, reloadMark);
      && Sound(c.view, parses)
      && (JobsMatch(v) && !mark.fails && !reloadMark.fails ==> JobsMatch(c.view))
      && ((CleanAgrees(v) || !read.fails) && !mark.fails && LostNothing(mark) && !reloadRead.fails && !reloadMark.fails
          && LostNothing(reloadMark)
          ==> CleanAgrees(c.view))
  {
    hide Valid, MarkAsLoaded, ReadStore, LostNothing, MemGenuine, CleanParses, CheckSync, CleanAgrees, CompleteReload;
    hide NeedsResync, Repair;
    var v1 := ReadStore(v, read);
    ReadKeeps(v, read, parses);
    if !read.fails {
      var c := CheckSync(v1.mem, All(v1.store));
      if NeedsResync(c) {
        RepairKeeps(v1, parses, mark);
        var repaired := Repair(v1, c, parses, mark);
        if !repaired.failed {
          var v2 := ReadStore(repaired.view, recheck);
          ReadKeeps(repaired.view, recheck, parses);
          if !recheck.fails && NeedsResync(CheckSync(v2.mem, All(v2.store))) {
            ReloadKeeps(v2, parses, reloadRead, reloadMark);
          }
        }
      } else {
        NothingFoundAgrees(v1, parses);
      }
    }
  }

  lemma CallKeeps(m: Managed, call: Call, parses: string -> bool)
    requires Sound(m.view, parses)
    ensures var m' := AfterCall(m, call, parses).0;
      && Sound(m'.view, parses)
      && (JobsMatch(m.view) && !call.mark.fails && !call.reloadMark.fails ==> JobsMatch(m'.view))
      && ((m.wasLeader ==> CleanAgrees(m.view)) && Undisturbed(m, CallEvent(call)) && m'.wasLeader ==>
          CleanAgrees(m'.view))
  {
    hide Valid, MemGenuine, CleanParses, CleanAgrees, CompleteReload, SyncNotLoaded, EnforceSync, LostNothing;
    hide Contained;
    if !m.wasLeader && call.isLeader {
      ReloadKeeps(m.view, parses, call.read, call.mark);
    } else if m.wasLeader && call.isLeader {
      SyncKeeps(m.view, parses, call.read, call.mark);
      EnforceKeeps(m.view, parses, call.read, call.mark, call.recheck, call.reloadRead, call.reloadMark);
    } else {
      StopKeeps(m.view, parses);
    }
  }

  // ---- runs ----

  /** One step of a run. Elsewhere is another manager's bulk request to mark documents. */
  datatype Event =
    | ApiEvent(write: ApiWrite)
    | CallEvent(call: Call)
    | Elsewhere(marks: seq<RecurringTask>, plan: MarkPlan)

  function Next(m: Managed, e: Event, parses: string -> bool): Managed
    requires StoreOk(m.view.store)
  {
    match e
    case ApiEvent(w) => m.(view := m.view.(store := AfterApi(m.view.store, w)))
    case CallEvent(call) => AfterCall(m, call, parses).0
    case Elsewhere(marks, plan) => m.(view := m.view.(store := MarkItems(m.view.store, marks, plan).0))
  }

  /** Managers share a parser: what they mark is deleted or parses. */
  predicate Plausible(e: Event, parses: string -> bool) {
    e.Elsewhere? ==> forall i :: 0 <= i < |e.marks| ==> e.marks[i].isDeleted || parses(e.marks[i].body.expression)
  }

  /** No other manager marks while this one leads, searches see current documents, every item that is
      answered with an error was not written, and what the call needs to keep memory in agreement does
      not fail. */
  ghost predicate Undisturbed(m: Managed, e: Event) {
    match e
    case ApiEvent(_) => true
    case Elsewhere(_, _) => !m.wasLeader
    case CallEvent(call) =>
      && LostNothing(call.mark) && LostNothing(call.reloadMark)
      && (call.isLeader ==>
            if !m.wasLeader then !call.read.fails && !call.mark.fails
            else if call.kind == Sync then
              !(call.mark.fails && call.mark.tookEffect) && (call.read.fails || call.read.unrefreshed.None?)
            else !call.mark.fails && !call.reloadRead.fails && !call.reloadMark.fails)
  }

  /** No MarkLoaded of this manager fails outright. */
  predicate MarksAnswered(e: Event) { e.CallEvent? ==> !e.call.mark.fails && !e.call.reloadMark.fails }

  lemma NextKeeps(m: Managed, e: Event, parses: string -> bool)
    requires Sound(m.view, parses) && Plausible(e, parses)
    ensures var m' := Next(m, e, parses);
      && Sound(m'.view, parses)
      && (JobsMatch(m.view) && MarksAnswered(e) ==> JobsMatch(m'.view))
      && ((m.wasLeader ==> CleanAgrees(m.view)) && Undisturbed(m, e) && m'.wasLeader ==> CleanAgrees(m'.view))
  {
    hide Valid, MarkItems, AfterApi, AfterCall, GenuineAt, CleanParses, CleanAgrees, LostNothing;
    match e
    case ApiEvent(w) =>
      ApiOnlyDirties(m.view.store, w);
      ApiKeepsAgreement(m.view, AfterApi(m.view.store, w), parses);
    case CallEvent(call) => CallKeeps(m, call, parses);
    case Elsewhere(marks, plan) =>
      var s, s' := m.view.store, MarkItems(m.view.store, marks, plan).0;
      MarkItemsGrow(s, marks, plan);
      MarkKeepsCleanParses(s, marks, plan, parses);
      forall id | id in m.view.mem
        ensures GenuineAt(s', m.view.mem[id], id)
      {
        GenuineStays(s, s', m.view.mem[id], id);
      }
  }

  ghost predicate PlausibleRun(events: seq<Event>, parses: string -> bool) {
    forall i :: 0 <= i < |events| ==> Plausible(events[i], parses)
  }

  function After(m: Managed, events: seq<Event>, parses: string -> bool): (m': Managed)
    requires Sound(m.view, parses) && PlausibleRun(events, parses)
    ensures Sound(m'.view, parses)
    decreases events
  {
    if events == [] then m
    else
      NextKeeps(m, events[0], parses);
      After(Next(m, events[0], parses), events[1..], parses)
  }

  ghost predicate UndisturbedRun(m: Managed, events: seq<Event>, parses: string -> bool)
    requires Sound(m.view, parses) && PlausibleRun(events, parses)
    decreases events
  {
    events != [] ==>
      Undisturbed(m, events[0]) &&
      (NextKeeps(m, events[0], parses);
       UndisturbedRun(Next(m, events[0], parses), events[1..], parses))
  }

  /** A manager that has just been started, over any store. */
  ghost predicate Started(m: Managed, parses: string -> bool) {
    CleanParses(m.view.store, parses) && m.view.mem == map[] && m.view.jobs == map[] && !m.wasLeader
  }

  /** Whatever fails and however stale the searches are, each id in memory is scheduled with the
      definition in memory, and memory holds genuine copies. */
  lemma {:induction false} MemoryIsAlwaysScheduled(m: Managed, events: seq<Event>, parses: string -> bool)
    requires Started(m, parses) && PlausibleRun(events, parses)
    ensures var v := After(m, events, parses).view; Contained(v) && MemGenuine(v)
  {
    hide Valid, After;
  }

  /** Unless a MarkLoaded fails outright, jobs and memory stay equal. */
  lemma {:induction false} JobsStayMatched(m: Managed, events: seq<Event>, parses: string -> bool)
    requires Sound(m.view, parses) && PlausibleRun(events, parses) && JobsMatch(m.view)
    requires forall i :: 0 <= i < |events| ==> MarksAnswered(events[i])
    ensures JobsMatch(After(m, events, parses).view)
    decreases events
  {
    hide Valid, CleanParses, MemGenuine, Contained, JobsMatch, Next, MarksAnswered;
    if events != [] {
      NextKeeps(m, events[0], parses);
      JobsStayMatched(Next(m, events[0], parses), events[1..], parses);
    }
  }

  /** So the call that observes the loss of leadership leaves nothing scheduled. */
  lemma {:induction false} LosingLeadershipStopsEverything(m: Managed, events: seq<Event>, call: Call,
                                                           parses: string -> bool)
    requires Started(m, parses) && PlausibleRun(events, parses)
    requires forall i :: 0 <= i < |events| ==> MarksAnswered(events[i])
    requires After(m, events, parses).wasLeader && !call.isLeader
    ensures var v := AfterCall(After(m, events, parses), call, parses).0.view; v.jobs == map[] && v.mem == map[]
  {
    hide Valid, After, Sound;
    StartedIsSound(m, parses);
    JobsStayMatched(m, events, parses);
  }

  lemma StartedIsSound(m: Managed, parses: string -> bool)
    requires Started(m, parses)
    ensures Sound(m.view, parses) && JobsMatch(m.view)
  {
  }

  /** While this manager leads, memory agrees with every clean document, whatever API users write and
      whenever they write it. */
  lemma {:induction false} CleanDocumentsAgree(m: Managed, events: seq<Event>, parses: string -> bool)
    requires Sound(m.view, parses) && PlausibleRun(events, parses)
    requires m.wasLeader ==> CleanAgrees(m.view)
    requires UndisturbedRun(m, events, parses)
    ensures After(m, events, parses).wasLeader ==> CleanAgrees(After(m, events, parses).view)
    decreases events
  {
    hide Valid, CleanParses, MemGenuine, Contained, Next, Undisturbed, CleanAgrees;
    if events != [] {
      NextKeeps(m, events[0], parses);
      CleanDocumentsAgree(Next(m, events[0], parses), events[1..], parses);
    }
  }
}
