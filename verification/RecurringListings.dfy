/**
The lists that the recurring-task manager works through, described by the ids they list: each holds
exactly one current copy of every document it selects.
*/
module RecurringListings {
  import opened VersionedStore
  import opened RecurringStore
  import opened RecurringSync

  ghost predicate Lists(s: RecurringStore, ts: seq<RecurringTask>, ids: set<RecurringId>) {
    DistinctIds(ts) && CurrentCopies(s, ts) && IdsOf(ts) == ids
  }

  /** The documents under ids that parse. */
  function Parsing(s: RecurringStore, ids: set<RecurringId>, parses: string -> bool): set<RecurringId>
    requires forall id :: id in ids ==> id in s.live && s.live[id] < |s.log|
  {
    set id | id in ids && parses(LiveDoc(s, id).body.expression)
  }

  function Deleted(s: RecurringStore, ids: set<RecurringId>): set<RecurringId>
    requires forall id :: id in ids ==> id in s.live && s.live[id] < |s.log|
  {
    set id | id in ids && LiveDoc(s, id).isDeleted
  }

  /** The ids that should be running. */
  function Runnable(s: RecurringStore, parses: string -> bool): set<RecurringId>
    requires forall id :: id in s.live ==> s.live[id] < |s.log|
  {
    Parsing(s, UndeletedIds(s), parses)
  }

  /** The undeleted ids that memory lacks or has at another version. */
  function OutOfStep(s: RecurringStore, mem: TaskMap): set<RecurringId>
    requires forall id :: id in s.live ==> s.live[id] < |s.log|
  {
    set id | id in UndeletedIds(s) && (id !in mem || mem[id].version != s.live[id])
  }

  lemma InList(s: RecurringStore, ts: seq<RecurringTask>, ids: set<RecurringId>, t: RecurringTask)
    requires Lists(s, ts, ids)
    ensures t in ts <==> t.id in ids && t.id in s.live && s.live[t.id] < |s.log| && t == CopyOf(s, t.id)
  {
    if t in ts {
      var i :| 0 <= i < |ts| && ts[i] == t;
    }
    if t.id in ids {
      var u :| u in ts && u.id == t.id;
      var i :| 0 <= i < |ts| && ts[i] == u;
    }
  }

  /** A list without repetitions whose members are exactly the current copies of ids. */
  lemma IsListing(s: RecurringStore, us: seq<RecurringTask>, ids: set<RecurringId>)
    requires DistinctIds(us)
    requires forall id :: id in ids ==> id in s.live && s.live[id] < |s.log|
    requires forall u :: u in us <==> u.id in ids && u == CopyOf(s, u.id)
    ensures Lists(s, us, ids)
  {
    forall i | 0 <= i < |us|
      ensures us[i].id in s.live && s.live[us[i].id] < |s.log| && us[i] == CopyOf(s, us[i].id)
    {
      assert us[i] in us;
    }
    forall id
      ensures id in IdsOf(us) <==> id in ids
    {
      if id in ids { assert CopyOf(s, id) in us; }
    }
  }

  lemma ListingsList(s: RecurringStore)
    requires StoreOk(s)
    ensures Lists(s, All(s), UndeletedIds(s))
    ensures Lists(s, NotLoaded(s), DirtyIds(s))
  {
    ListingsAreCurrent(s);
  }

  lemma {:induction false} ScheduledLists(s: RecurringStore, ts: seq<RecurringTask>, ids: set<RecurringId>,
                                          parses: string -> bool)
    requires StoreOk(s) && ids <= s.live.Keys && Lists(s, ts, ids)
    ensures Lists(s, Scheduled(ts, parses), Parsing(s, ids, parses))
  {
    ScheduledAre(ts, parses);
    forall t
      ensures t in Scheduled(ts, parses) <==> t.id in Parsing(s, ids, parses) && t == CopyOf(s, t.id)
    {
      InList(s, ts, ids, t);
    }
    IsListing(s, Scheduled(ts, parses), Parsing(s, ids, parses));
  }

  lemma {:induction false} WhereLists(s: RecurringStore, ts: seq<RecurringTask>, ids: set<RecurringId>)
    requires StoreOk(s) && ids <= s.live.Keys && Lists(s, ts, ids)
    ensures Lists(s, Where(ts, true), Deleted(s, ids))
    ensures Lists(s, Where(ts, false), ids - Deleted(s, ids))
  {
    WhereAre(ts, true);
    WhereAre(ts, false);
    forall t
      ensures t in Where(ts, true) <==> t.id in Deleted(s, ids) && t == CopyOf(s, t.id)
      ensures t in Where(ts, false) <==> t.id in ids - Deleted(s, ids) && t == CopyOf(s, t.id)
    {
      InList(s, ts, ids, t);
    }
    IsListing(s, Where(ts, true), Deleted(s, ids));
    IsListing(s, Where(ts, false), ids - Deleted(s, ids));
  }

  lemma ConcatLists(s: RecurringStore, ts: seq<RecurringTask>, ids: set<RecurringId>, us: seq<RecurringTask>,
                    more: set<RecurringId>)
    requires Lists(s, ts, ids) && Lists(s, us, more) && ids !! more
    ensures Lists(s, ts + us, ids + more)
  {
    forall i, j | 0 <= i < j < |ts + us|
      ensures (ts + us)[i].id != (ts + us)[j].id
    {
      if i < |ts| <= j {
        assert ts[i] in ts && us[j - |ts|] in us;
        assert ts[i].id in IdsOf(ts) && us[j - |ts|].id in IdsOf(us);
      }
    }
    assert IdsOf(ts + us) == IdsOf(ts) + IdsOf(us);
  }

  lemma ToResyncLists(s: RecurringStore, mem: TaskMap)
    requires StoreOk(s)
    ensures Lists(s, ToResync(CheckSync(mem, All(s))), OutOfStep(s, mem))
    ensures CheckSync(mem, All(s)).notInDataStore == mem.Keys - UndeletedIds(s)
  {
    hide Valid, DistinctIds, CurrentCopies;
    var all := All(s);
    var todo := ToResync(CheckSync(mem, all));
    ListingsList(s);
    ToResyncAre(all, mem);
    forall t
      ensures t in todo <==> t.id in OutOfStep(s, mem) && t == CopyOf(s, t.id)
    {
      InList(s, all, UndeletedIds(s), t);
    }
    IsListing(s, todo, OutOfStep(s, mem));
  }

  /** The check finds something exactly when an id is out of step or memory holds one too many. */
  lemma NeedsResyncExactlyWhen(s: RecurringStore, mem: TaskMap)
    requires StoreOk(s)
    ensures NeedsResync(CheckSync(mem, All(s))) <==> !(mem.Keys <= UndeletedIds(s)) || OutOfStep(s, mem) != {}
  {
    hide Valid, DistinctIds, CurrentCopies, CheckSync, OutOfStep, UndeletedIds;
    ToResyncLists(s, mem);
    var c := CheckSync(mem, All(s));
    assert c.notInDataStore == mem.Keys - UndeletedIds(s);
    forall id | id in mem.Keys
      ensures id in c.notInDataStore || id in UndeletedIds(s)
    {
    }
    EmptyList(ToResync(c));
    assert IdsOf(ToResync(c)) == OutOfStep(s, mem);
    assert ToResync(c) == [] <==> c.notInMemory == [] && c.versionMismatch == [];
  }

  lemma EmptyList(ts: seq<RecurringTask>)
    ensures IdsOf(ts) == {} <==> ts == []
  {
    if ts != [] { assert ts[0] in ts && ts[0].id in IdsOf(ts); }
  }

  /** Scheduling a listing gives the ids that parse their current definition and the rest no job. */
  lemma {:induction false} ScheduleListed(s: RecurringStore, jobs: TaskMap, ts: seq<RecurringTask>,
                                          ids: set<RecurringId>,
                                          parses: string -> bool, id: RecurringId)
    requires StoreOk(s) && ids <= s.live.Keys && Lists(s, ts, ids)
    ensures var jobs' := ScheduleAll(jobs, ts, parses);
      if id !in ids then (id in jobs' <==> id in jobs) && (id in jobs ==> jobs'[id] == jobs[id])
      else if id in Parsing(s, ids, parses) then id in jobs' && jobs'[id] == CopyOf(s, id)
      else id !in jobs'
  {
    ScheduleAllAt(jobs, ts, parses);
    if id in ids { InList(s, ts, ids, CopyOf(s, id)); }
  }

  /** The ids that syncNotLoaded acknowledges. */
  function Acked(s: RecurringStore, parses: string -> bool): set<RecurringId>
    requires forall id :: id in s.live ==> s.live[id] < |s.log|
  {
    set id | id in DirtyIds(s) && (LiveDoc(s, id).isDeleted || parses(LiveDoc(s, id).body.expression))
  }

  lemma AckedLists(s: RecurringStore, parses: string -> bool)
    requires StoreOk(s)
    ensures var deleted, updated := Where(NotLoaded(s), true), Where(NotLoaded(s), false);
      && Lists(s, deleted, Deleted(s, DirtyIds(s)))
      && Lists(s, updated, DirtyIds(s) - Deleted(s, DirtyIds(s)))
      && Lists(s, ToAck(NotLoaded(s), parses), Acked(s, parses))
  {
    var dirty := DirtyIds(s);
    var deleted, updated := Where(NotLoaded(s), true), Where(NotLoaded(s), false);
    ListingsList(s);
    WhereLists(s, NotLoaded(s), dirty);
    ScheduledLists(s, updated, dirty - Deleted(s, dirty), parses);
    ConcatLists(s, deleted, Deleted(s, dirty), Scheduled(updated, parses),
        Parsing(s, dirty - Deleted(s, dirty), parses));
    assert Deleted(s, dirty) + Parsing(s, dirty - Deleted(s, dirty), parses) == Acked(s, parses);
  }
}
