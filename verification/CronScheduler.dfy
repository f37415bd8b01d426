/**
The scheduler of recurring tasks (internal/infra/cron/task/recurring/scheduler.go) over a cron table.
What a job does when it fires is TaskMaintenance.FireJob.
*/
module CronScheduler {
  import opened RecurringStore
  import opened RecurringSync

  type EntryId = nat

  /** robfig/cron as the scheduler sees it: entry ids count up from 1, an expression that does not parse
      yields id 0 and no entry, and removing an unknown id does nothing. */
  class Cron {
    const parses: string -> bool
    var entries: map<EntryId, RecurringTask>
    var lastId: EntryId

    constructor (parses: string -> bool)
      ensures this.parses == parses && entries == map[] && lastId == 0
    {
      this.parses := parses;
      entries := map[];
      lastId := 0;
    }

    method AddJob(task: RecurringTask) returns (id: EntryId, ok: bool)
      modifies this
      ensures ok == parses(task.body.expression)
      ensures if ok then lastId == id == old(lastId) + 1 && entries == old(entries)[id := task]
              else id == 0 && lastId == old(lastId) && entries == old(entries)
    {
      ok := parses(task.body.expression);
      if ok {
        lastId := lastId + 1;
        id := lastId;
        entries := entries[id := task];
      } else {
        id := 0;
      }
    }

    method Remove(id: EntryId)
      modifies `entries
      ensures entries == old(entries) - {id}
    {
      entries := entries - {id};
    }
  }

  /** A live entry is the value of its task's id. */
  ghost predicate EntryOk(ids: map<RecurringId, EntryId>, entries: map<EntryId, RecurringTask>, lastId: EntryId,
                          e: EntryId)
    requires e in entries
  {
    1 <= e <= lastId && entries[e].id in ids && ids[entries[e].id] == e
  }

  ghost predicate IdOk(ids: map<RecurringId, EntryId>, entries: map<EntryId, RecurringTask>, lastId: EntryId,
                       id: RecurringId)
    requires id in ids
  {
    ids[id] <= lastId && (ids[id] in entries ==> entries[ids[id]].id == id)
  }

  /** Every live entry is the value of its task's id, and of no other; entry ids are used once. */
  ghost predicate TablesOk(ids: map<RecurringId, EntryId>, entries: map<EntryId, RecurringTask>, lastId: EntryId) {
    && (forall e :: e in entries ==> EntryOk(ids, entries, lastId, e))
    && (forall id :: id in ids ==> IdOk(ids, entries, lastId, id))
  }

  /** The definition that each id's live job runs. */
  ghost function JobsOf(ids: map<RecurringId, EntryId>, entries: map<EntryId, RecurringTask>): TaskMap {
    map id | id in ids && ids[id] in entries :: entries[ids[id]]
  }

  lemma RemoveFromTables(ids: map<RecurringId, EntryId>, entries: map<EntryId, RecurringTask>, lastId: EntryId,
                         id: RecurringId)
    requires TablesOk(ids, entries, lastId) && id in ids
    ensures TablesOk(ids - {id}, entries - {ids[id]}, lastId)
    ensures JobsOf(ids - {id}, entries - {ids[id]}) == JobsOf(ids, entries) - {id}
  {
    var ids', entries' := ids - {id}, entries - {ids[id]};
    forall e | e in entries'
      ensures EntryOk(ids', entries', lastId, e)
    {
      assert EntryOk(ids, entries, lastId, e);
    }
    forall other | other in ids'
      ensures IdOk(ids', entries', lastId, other) && (ids'[other] in entries' <==> ids[other] in entries)
    {
      assert IdOk(ids, entries, lastId, other) && IdOk(ids, entries, lastId, id);
    }
  }

  lemma KeysAreIds(ids: map<RecurringId, EntryId>, entries: map<EntryId, RecurringTask>)
    ensures JobsOf(ids, entries).Keys <= ids.Keys
  {
  }

  lemma RecordFailure(ids: map<RecurringId, EntryId>, entries: map<EntryId, RecurringTask>, lastId: EntryId,
                      id: RecurringId)
    requires TablesOk(ids, entries, lastId) && id !in ids
    ensures TablesOk(ids[id := 0], entries, lastId)
    ensures JobsOf(ids[id := 0], entries) == JobsOf(ids, entries)
  {
    forall e | e in entries
      ensures EntryOk(ids[id := 0], entries, lastId, e)
    {
      assert EntryOk(ids, entries, lastId, e);
    }
    forall other | other in ids
      ensures IdOk(ids[id := 0], entries, lastId, other)
    {
      assert IdOk(ids, entries, lastId, other);
    }
  }

  lemma AddToTables(ids: map<RecurringId, EntryId>, entries: map<EntryId, RecurringTask>, lastId: EntryId,
                    t: RecurringTask)
    requires TablesOk(ids, entries, lastId) && t.id !in ids
    ensures TablesOk(ids[t.id := lastId + 1], entries[lastId + 1 := t], lastId + 1)
    ensures JobsOf(ids[t.id := lastId + 1], entries[lastId + 1 := t]) == JobsOf(ids, entries)[t.id := t]
  {
    var ids', entries' := ids[t.id := lastId + 1], entries[lastId + 1 := t];
    forall e | e in entries'
      ensures EntryOk(ids', entries', lastId + 1, e)
    {
      if e != lastId + 1 { assert EntryOk(ids, entries, lastId, e); }
    }
    forall other | other in ids'
      ensures IdOk(ids', entries', lastId + 1, other)
      ensures other != t.id ==> (ids'[other] in entries' <==> ids[other] in entries)
    {
      if other != t.id { assert IdOk(ids, entries, lastId, other); }
    }
  }

  class Scheduler {
    const cron: Cron
    var idsToEntryIds: map<RecurringId, EntryId>

    ghost predicate Valid()
      reads this, cron
    {
      TablesOk(idsToEntryIds, cron.entries, cron.lastId)
    }

    ghost function Jobs(): TaskMap
      reads this, cron
    {
      JobsOf(idsToEntryIds, cron.entries)
    }

    constructor (cron: Cron)
      requires cron.entries == map[]
      ensures Valid() && Jobs() == map[] && this.cron == cron
    {
      this.cron := cron;
      idsToEntryIds := map[];
    }

    /** Drops the entry under an id, if the map has one. */
    method Remove(id: RecurringId)
      requires Valid() && id in idsToEntryIds
      modifies this, cron
      ensures Valid() && Jobs() == old(Jobs()) - {id}
      ensures idsToEntryIds == old(idsToEntryIds) - {id} && cron.lastId == old(cron.lastId)
    {
      hide TablesOk, JobsOf;
      RemoveFromTables(idsToEntryIds, cron.entries, cron.lastId, id);
      cron.Remove(idsToEntryIds[id]);
      idsToEntryIds := idsToEntryIds - {id};
    }

    /** An upsert: the old job goes in any case, and a job that cannot be parsed is still recorded, under
        entry id 0. */
    method Schedule(task: RecurringTask) returns (ok: bool)
      requires Valid()
      modifies this, cron
      ensures Valid()
      ensures ok == cron.parses(task.body.expression)
      ensures Jobs() == ScheduleOne(old(Jobs()), task, cron.parses)
      ensures idsToEntryIds.Keys == old(idsToEntryIds.Keys) + {task.id}
    {
      hide TablesOk, JobsOf;
      KeysAreIds(idsToEntryIds, cron.entries);
      ghost var jobs := Jobs();
      if task.id in idsToEntryIds {
        Remove(task.id);
      }
      assert Jobs() == jobs - {task.id};
      RecordFailure(idsToEntryIds, cron.entries, cron.lastId, task.id);
      AddToTables(idsToEntryIds, cron.entries, cron.lastId, task);
      var entryId;
      entryId, ok := cron.AddJob(task);
      idsToEntryIds := idsToEntryIds[task.id := entryId];
    }

    method Unschedule(id: RecurringId) returns (found: bool)
      requires Valid()
      modifies this, cron
      ensures Valid() && found == (id in old(idsToEntryIds))
      ensures Jobs() == old(Jobs()) - {id}
      ensures idsToEntryIds == old(idsToEntryIds) - {id}
    {
      hide TablesOk, JobsOf;
      KeysAreIds(idsToEntryIds, cron.entries);
      if id in idsToEntryIds {
        Remove(id);
        found := true;
      } else {
        found := false;
      }
    }
  }

  /** No entry is leaked or doubled: entries and jobs are one to one. */
  lemma EntriesAreJobs(s: Scheduler)
    requires s.Valid()
    ensures s.cron.entries.Values == s.Jobs().Values
    ensures forall e :: e in s.cron.entries ==>
              s.cron.entries[e].id in s.Jobs() && s.Jobs()[s.cron.entries[e].id] == s.cron.entries[e]
    ensures forall e, e' ::
              e in s.cron.entries && e' in s.cron.entries && s.cron.entries[e].id == s.cron.entries[e'].id ==> e == e'
    ensures forall id :: id in s.Jobs() ==> s.Jobs()[id].id == id
  {
    var entries, jobs := s.cron.entries, s.Jobs();
    forall t
      ensures t in entries.Values <==> t in jobs.Values
    {
      if t in entries.Values {
        var e :| e in entries && entries[e] == t;
        assert t.id in jobs && jobs[t.id] == t;
      }
      if t in jobs.Values {
        var id :| id in jobs && jobs[id] == t;
        assert s.idsToEntryIds[id] in entries;
      }
    }
  }

  // ---- over any sequence of calls ----

  datatype Request = ToSchedule(task: RecurringTask) | ToUnschedule(id: RecurringId)

  function About(r: Request): RecurringId {
    match r case ToSchedule(t) => t.id case ToUnschedule(id) => id
  }

  function JobsAfter(jobs: TaskMap, requests: seq<Request>, parses: string -> bool): TaskMap {
    if requests == [] then jobs
    else
      var before := JobsAfter(jobs, requests[..|requests| - 1], parses);
      match requests[|requests| - 1]
      case ToSchedule(t) => ScheduleOne(before, t, parses)
      case ToUnschedule(id) => before - {id}
  }

  /** Any sequence of calls, one at a time under the scheduler's mutex. */
  method Serve(s: Scheduler, requests: seq<Request>)
    requires s.Valid()
    modifies s, s.cron
    ensures s.Valid() && s.Jobs() == JobsAfter(old(s.Jobs()), requests, s.cron.parses)
  {
    ghost var jobs := s.Jobs();
    for i := 0 to |requests|
      invariant s.Valid() && s.Jobs() == JobsAfter(jobs, requests[..i], s.cron.parses)
    {
      assert requests[..i + 1][..i] == requests[..i];
      match requests[i] {
        case ToSchedule(t) => var _ := s.Schedule(t);
        case ToUnschedule(id) => var _ := s.Unschedule(id);
      }
    }
    assert requests[..|requests|] == requests;
  }

  /** The last request about an id decides: it runs that definition, or nothing. */
  lemma {:induction false} LastRequestDecides(jobs: TaskMap, requests: seq<Request>, k: nat, parses: string -> bool)
    requires k < |requests| && forall j :: k < j < |requests| ==> About(requests[j]) != About(requests[k])
    ensures var after, id := JobsAfter(jobs, requests, parses), About(requests[k]);
      && (id in after <==> requests[k].ToSchedule? && parses(requests[k].task.body.expression))
      && (id in after ==> after[id] == requests[k].task)
  {
    var n := |requests| - 1;
    if k < n {
      LastRequestDecides(jobs, requests[..n], k, parses);
      assert About(requests[n]) != About(requests[k]);
    }
  }
}
