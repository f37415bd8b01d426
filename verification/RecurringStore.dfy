/**
The store of recurring tasks (internal/infra/elasticsearch/task/recurring/service.go): definitions
that API users create, change and soft-delete, each with a LoadedAt marker that every such write
clears and that only the manager sets.
*/
module RecurringStore {
  import opened Wrappers
  import opened VersionedStore

  type Time = int

  /** Ids are strings in the source, which only compares them and sorts by them: here, their rank. */
  type RecurringId = nat

  datatype TaskDefinition = TaskDefinition(
    queue: string,
    retryTimes: nat,
    kind: string,
    priority: int,
    processingTimeout: Time,
    args: Option<string>,
    context: Option<string>)

  /** The user's part of a recurring task. */
  datatype Body = Body(expression: string, skipIfOutstanding: bool, definition: TaskDefinition)

  datatype RecurringDoc = RecurringDoc(body: Body, isDeleted: bool, loadedAt: Option<Time>)

  /** A copy of a document, as the service hands it out. */
  datatype RecurringTask = RecurringTask(id: RecurringId, body: Body, isDeleted: bool, loadedAt: Option<Time>,
                                         version: Version)

  datatype Writer = Api | Manager

  type RecurringStore = Store<RecurringId, RecurringDoc, Writer>

  // ---- API writes ----

  /** The writes that API users cause. Creating over a soft-deleted document reindexes it without a
      version check, so it may hit a document that has changed since it was read. */
  datatype ApiWrite =
    | ApiCreate(id: RecurringId, body: Body)
    | ApiReindex(id: RecurringId, body: Body)
    | ApiUpdate(id: RecurringId, version: Version, body: Body)
    | ApiDelete(id: RecurringId, version: Version)

  function Fresh(body: Body): RecurringDoc { RecurringDoc(body, false, None) }

  /** A copy that Get without soft-deleted documents may have returned at some time. */
  predicate Readable(s: RecurringStore, id: RecurringId, version: Version) {
    version < |s.log| && s.log[version].key == id && !s.log[version].doc.isDeleted
  }

  function AfterApi(s: RecurringStore, w: ApiWrite): RecurringStore {
    match w
    case ApiCreate(id, body) => CreateIf(s, id, Fresh(body), Api, Served(false)).0
    case ApiReindex(id, body) => if id in s.live then Put(s, id, Fresh(body), Api) else s
    case ApiUpdate(id, version, body) =>
      if Readable(s, id, version) then IndexIf(s, id, version, Fresh(body), Api, Served(false)).0 else s
    case ApiDelete(id, version) =>
      if Readable(s, id, version) then
        IndexIf(s, id, version, RecurringDoc(s.log[version].doc.body, true, None), Api, Served(false)).0
      else s
  }

  function AfterApiAll(s: RecurringStore, writes: seq<ApiWrite>): RecurringStore
    decreases writes
  {
    if writes == [] then s else AfterApiAll(AfterApi(s, writes[0]), writes[1..])
  }

  /** The live document under id. */
  function LiveDoc(s: RecurringStore, id: RecurringId): RecurringDoc
    requires id in s.live && s.live[id] < |s.log|
  {
    s.log[s.live[id]].doc
  }

  ghost predicate StoreOk(s: RecurringStore) {
    Valid(s) && forall id :: id in s.live ==> s.live[id] < |s.log| && s.log[s.live[id]].key == id
  }

  lemma ValidIsOk(s: RecurringStore)
    requires Valid(s)
    ensures StoreOk(s)
  {
    forall id | id in s.live
      ensures s.live[id] < |s.log| && s.log[s.live[id]].key == id
    {
      assert LiveOk(s, id);
    }
  }

  /** From s to s' the log has grown, no id has gone, and whatever changed under an id is dirty. */
  ghost predicate OnlyDirtied(s: RecurringStore, s': RecurringStore) {
    && StoreOk(s) && StoreOk(s')
    && s.log <= s'.log
    && s.live.Keys <= s'.live.Keys
    && forall id :: id in s'.live ==>
         (id in s.live && s'.live[id] == s.live[id]) || (s'.live[id] >= |s.log| && LiveDoc(s', id).loadedAt == None)
  }

  lemma ApiOnlyDirties(s: RecurringStore, w: ApiWrite)
    requires StoreOk(s)
    ensures OnlyDirtied(s, AfterApi(s, w))
  {
    var s' := AfterApi(s, w);
    if s' != s {
      var k, d := s'.log[|s.log|].key, s'.log[|s.log|].doc;
      assert s' == Put(s, k, d, Api);
      PutKeepsValid(s, k, d, Api);
    }
    ValidIsOk(s');
  }

  lemma OnlyDirtiedTransitive(s0: RecurringStore, s1: RecurringStore, s2: RecurringStore)
    requires OnlyDirtied(s0, s1) && OnlyDirtied(s1, s2)
    ensures OnlyDirtied(s0, s2)
  {
  }

  lemma {:induction false} ApiAllOnlyDirties(s: RecurringStore, writes: seq<ApiWrite>)
    requires StoreOk(s)
    ensures OnlyDirtied(s, AfterApiAll(s, writes))
    decreases writes
  {
    if writes != [] {
      ApiOnlyDirties(s, writes[0]);
      ApiAllOnlyDirties(AfterApi(s, writes[0]), writes[1..]);
      OnlyDirtiedTransitive(s, AfterApi(s, writes[0]), AfterApiAll(s, writes));
    }
  }

  lemma {:induction false} InterferenceGrows(s: RecurringStore, writes: seq<ApiWrite>)
    requires StoreOk(s)
    ensures var s' := AfterApiAll(s, writes);
      && StoreOk(s') && s.log <= s'.log && s.live.Keys <= s'.live.Keys
      && forall id :: id in s'.live ==> s'.live[id] < |s'.log|
  {
    hide Valid, AfterApiAll;
    ApiAllOnlyDirties(s, writes);
  }

  // ---- listing ----

  predicate IsLeast(s: set<nat>, x: nat) { x in s && forall y :: y in s ==> x <= y }

  lemma {:induction false} HasLeast(s: set<nat>)
    requires s != {}
    ensures exists x :: IsLeast(s, x)
  {
    var x :| x in s;
    if s == {x} {
      assert IsLeast(s, x);
    } else {
      var rest := s - {x};
      HasLeast(rest);
      var z :| IsLeast(rest, z);
      assert s == rest + {x};
      assert IsLeast(s, if x < z then x else z);
    }
  }

  function Least(s: set<nat>): (x: nat)
    requires s != {}
    ensures IsLeast(s, x)
  {
    HasLeast(s);
    LeastIsUnique(s);
    var x :| IsLeast(s, x);
    x
  }

  lemma LeastIsUnique(s: set<nat>)
    ensures forall x, y :: IsLeast(s, x) && IsLeast(s, y) ==> x == y
  {
  }

  /** Sorted by _id, ascending. */
  function Sorted(s: set<nat>): seq<nat> {
    if s == {} then [] else [Least(s)] + Sorted(s - {Least(s)})
  }

  lemma {:induction false} SortedListsAll(s: set<nat>)
    ensures forall x :: x in Sorted(s) <==> x in s
    ensures forall i :: 0 <= i < |Sorted(s)| ==> Sorted(s)[i] in s
    ensures forall i, j :: 0 <= i < j < |Sorted(s)| ==> Sorted(s)[i] < Sorted(s)[j]
  {
    if s != {} {
      var rest := s - {Least(s)};
      SortedListsAll(rest);
      forall j | 0 < j < |Sorted(s)|
        ensures Sorted(s)[j] in rest
      {
        assert Sorted(s)[j] == Sorted(rest)[j - 1];
      }
    }
  }

  function CopyOf(s: RecurringStore, id: RecurringId): RecurringTask
    requires id in s.live && s.live[id] < |s.log|
  {
    var doc := LiveDoc(s, id);
    RecurringTask(id, doc.body, doc.isDeleted, doc.loadedAt, s.live[id])
  }

  function CopiesOf(s: RecurringStore, ids: seq<RecurringId>): (ts: seq<RecurringTask>)
    requires forall id :: id in s.live ==> s.live[id] < |s.log|
    requires forall i :: 0 <= i < |ids| ==> ids[i] in s.live
    ensures |ts| == |ids| && forall i :: 0 <= i < |ids| ==> ts[i] == CopyOf(s, ids[i])
  {
    seq(|ids|, i requires 0 <= i < |ids| => CopyOf(s, ids[i]))
  }

  function UndeletedIds(s: RecurringStore): set<RecurringId>
    requires forall id :: id in s.live ==> s.live[id] < |s.log|
  {
    set id | id in s.live && !LiveDoc(s, id).isDeleted
  }

  function DirtyIds(s: RecurringStore): set<RecurringId>
    requires forall id :: id in s.live ==> s.live[id] < |s.log|
  {
    set id | id in s.live && LiveDoc(s, id).loadedAt == None
  }

  /** All: every undeleted recurring task, sorted by id. */
  function All(s: RecurringStore): seq<RecurringTask>
    requires forall id :: id in s.live ==> s.live[id] < |s.log|
  {
    SortedListsAll(UndeletedIds(s));
    CopiesOf(s, Sorted(UndeletedIds(s)))
  }

  /** NotLoaded: everything, deleted or not, that has not been seen since its last change. */
  function NotLoaded(s: RecurringStore): seq<RecurringTask>
    requires forall id :: id in s.live ==> s.live[id] < |s.log|
  {
    SortedListsAll(DirtyIds(s));
    CopiesOf(s, Sorted(DirtyIds(s)))
  }

  /** The document written as version v, as a search of an index that has not been refreshed may still
      return it. */
  function PastCopy(s: RecurringStore, v: Version): RecurringTask
    requires v < |s.log|
  {
    var doc := s.log[v].doc;
    RecurringTask(s.log[v].key, doc.body, doc.isDeleted, doc.loadedAt, v)
  }

  /** What such a search returns of what it is offered: for an id at most one copy that once was stored
      and had not been seen. Documents are only ever soft-deleted, so their ids stay live. */
  function StaleHits(s: RecurringStore, candidates: seq<Version>): seq<RecurringTask> {
    if candidates == [] then []
    else
      var hits, v := StaleHits(s, candidates[..|candidates| - 1]), candidates[|candidates| - 1];
      if && v < |s.log| && s.log[v].key in s.live && s.log[v].doc.loadedAt == None
         && (forall t :: t in hits ==> t.id != s.log[v].key)
      then hits + [PastCopy(s, v)]
      else hits
  }

  /** No two entries for one id. */
  ghost predicate DistinctIds(ts: seq<RecurringTask>) {
    forall i, j :: 0 <= i < j < |ts| ==> ts[i].id != ts[j].id
  }

  function IdsOf(ts: seq<RecurringTask>): set<RecurringId> { set t | t in ts :: t.id }

  /** Every entry is a copy of what was once stored under its id. */
  ghost predicate PastCopies(s: RecurringStore, ts: seq<RecurringTask>) {
    forall t :: t in ts ==> t.id in s.live && t.version < |s.log| && t == PastCopy(s, t.version)
  }

  lemma {:induction false} StaleHitsArePast(s: RecurringStore, candidates: seq<Version>)
    ensures DistinctIds(StaleHits(s, candidates)) && PastCopies(s, StaleHits(s, candidates))
    ensures forall t :: t in StaleHits(s, candidates) ==> t.loadedAt == None
  {
    if candidates != [] {
      var front := candidates[..|candidates| - 1];
      StaleHitsArePast(s, front);
      forall i | 0 <= i < |StaleHits(s, front)|
        ensures StaleHits(s, front)[i] in StaleHits(s, front)
      {
      }
    }
  }

  /** It hides no change: every candidate that had not been seen, deleted or not, has its id among the hits. */
  lemma {:induction false} StaleHitsHideNothing(s: RecurringStore, candidates: seq<Version>, v: Version)
    requires v in candidates && v < |s.log| && s.log[v].key in s.live && s.log[v].doc.loadedAt == None
    ensures exists t :: t in StaleHits(s, candidates) && t.id == s.log[v].key
  {
    var front, last := candidates[..|candidates| - 1], candidates[|candidates| - 1];
    if last != v {
      StaleHitsHideNothing(s, front, v);
      var t :| t in StaleHits(s, front) && t.id == s.log[v].key;
      assert t in StaleHits(s, candidates);
    } else if forall t :: t in StaleHits(s, front) ==> t.id != s.log[v].key {
      assert PastCopy(s, v) in StaleHits(s, candidates);
    } else {
      var t :| t in StaleHits(s, front) && t.id == s.log[v].key;
      assert t in StaleHits(s, candidates);
    }
  }

  lemma CurrentIsPast(s: RecurringStore, ts: seq<RecurringTask>)
    requires StoreOk(s) && CurrentCopies(s, ts)
    ensures PastCopies(s, ts)
  {
    forall t | t in ts
      ensures t.id in s.live && t.version < |s.log| && t == PastCopy(s, t.version)
    {
      var i :| 0 <= i < |ts| && ts[i] == t;
    }
  }

  /** Every entry is a copy of the live document of its id. */
  ghost predicate CurrentCopies(s: RecurringStore, ts: seq<RecurringTask>) {
    forall i :: 0 <= i < |ts| ==> ts[i].id in s.live && s.live[ts[i].id] < |s.log| && ts[i] == CopyOf(s, ts[i].id)
  }

  ghost predicate Ascending(ts: seq<RecurringTask>) { forall i, j :: 0 <= i < j < |ts| ==> ts[i].id < ts[j].id }

  /** Both listings return one current copy of each document they select, and of no other, sorted by id. */
  lemma ListingsAreCurrent(s: RecurringStore)
    requires StoreOk(s)
    ensures DistinctIds(All(s)) && CurrentCopies(s, All(s)) && IdsOf(All(s)) == UndeletedIds(s)
    ensures DistinctIds(NotLoaded(s)) && CurrentCopies(s, NotLoaded(s)) && IdsOf(NotLoaded(s)) == DirtyIds(s)
    ensures Ascending(All(s)) && Ascending(NotLoaded(s))
  {
    ListingIsCurrent(s, UndeletedIds(s));
    ListingIsCurrent(s, DirtyIds(s));
  }

  lemma {:induction false} ListingIsCurrent(s: RecurringStore, ids: set<RecurringId>)
    requires StoreOk(s) && ids <= s.live.Keys
    ensures (forall i :: 0 <= i < |Sorted(ids)| ==> Sorted(ids)[i] in s.live)
    ensures var ts := CopiesOf(s, Sorted(ids));
      DistinctIds(ts) && CurrentCopies(s, ts) && IdsOf(ts) == ids && Ascending(ts)
  {
    hide Valid, Sorted, LiveDoc;
    SortedListsAll(ids);
    var ts := CopiesOf(s, Sorted(ids));
    forall id
      ensures id in IdsOf(ts) <==> id in ids
    {
      if id in ids {
        assert id in Sorted(ids);
        var i :| 0 <= i < |Sorted(ids)| && Sorted(ids)[i] == id;
        assert ts[i] in ts;
      }
    }
  }
}
