/**
Marking as loaded when nobody else writes meanwhile: what becomes of each item, of memory and of the
documents, for copies that are current and for copies that are not.
*/
module RecurringMarking {
  import opened Wrappers
  import opened VersionedStore
  import opened RecurringStore
  import opened RecurringSync
  import opened RecurringListings
  import opened RecurringTheorems

  /** Nobody writes between the items. */
  ghost predicate Undisturbing(plan: MarkPlan) { forall n :: plan.before(n) == [] }

  /** And the call is answered, and the store serves every item. */
  ghost predicate QuietMark(plan: MarkPlan) {
    Undisturbing(plan) && !plan.fails && forall n :: plan.fate(n).Served?
  }

  predicate QuietRead(read: ReadPlan) { !read.fails && read.before == [] && read.unrefreshed == None }

  /** What becomes of one item: it is written exactly if it arrives and carries the live version. */
  ghost predicate ItemOutcome(s: RecurringStore, s': RecurringStore, m: RecurringTask, reply: Reply, fate: Fate)
    requires m.id in s.live && m.id in s'.live && s'.live[m.id] < |s'.log|
  {
    if m.version == s.live[m.id] && !fate.Dropped? then
      && s'.live[m.id] >= |s.log| && LiveDoc(s', m.id) == DocOf(m)
      && reply == (if fate.AckLost? then Errored else Committed(s'.live[m.id]))
    else
      && s'.live[m.id] == s.live[m.id]
      && reply == (if fate.Served? then Conflict else Errored)
  }

  ghost predicate AllOutcomes(s: RecurringStore, s': RecurringStore, ms: seq<RecurringTask>, replies: seq<Reply>,
                              plan: MarkPlan)
    requires forall id :: id in s'.live ==> s'.live[id] < |s'.log|
  {
    && |replies| == |ms|
    && forall i :: 0 <= i < |ms| ==>
         ms[i].id in s.live && ms[i].id in s'.live && ItemOutcome(s, s', ms[i], replies[i], plan.fate(i))
  }

  /** What a request that nobody disturbs does: to each item its outcome, to no other document anything. */
  ghost predicate ItemsDone(s: RecurringStore, s': RecurringStore, ms: seq<RecurringTask>, replies: seq<Reply>,
                            plan: MarkPlan)
  {
    && (forall id :: id in s'.live ==> s'.live[id] < |s'.log|)
    && s.log <= s'.log && s'.live.Keys == s.live.Keys
    && AllOutcomes(s, s', ms, replies, plan)
    && (forall id :: id in s.live && id !in IdsOf(ms) ==> s'.live[id] == s.live[id])
  }

  lemma {:induction false} UndisturbedItems(s: RecurringStore, ms: seq<RecurringTask>, plan: MarkPlan)
    requires StoreOk(s) && DistinctIds(ms) && Undisturbing(plan)
    requires forall i :: 0 <= i < |ms| ==> ms[i].id in s.live
    ensures var (s', replies) := MarkItems(s, ms, plan);
      && StoreOk(s') && s.log <= s'.log && s'.live.Keys == s.live.Keys
      && AllOutcomes(s, s', ms, replies, plan)
      && (forall id :: id in s.live && id !in IdsOf(ms) ==> s'.live[id] == s.live[id])
  {
    hide Valid, IdsOf, DistinctIds, AllOutcomes, IndexIf, AfterApiAll;
    MarkItemsGrow(s, ms, plan);
    if ms == [] {
      NoOutcomes(s, plan);
    } else {
      var n := |ms| - 1;
      LastIsNew(ms);
      FrontIsDistinct(ms);
      forall i | 0 <= i < n
        ensures ms[..n][i].id in s.live
      {
        assert ms[..n][i] == ms[i];
      }
      UndisturbedItems(s, ms[..n], plan);
      var (s1, front) := MarkItems(s, ms[..n], plan);
      NoWrites(s1);
      assert plan.before(n) == [];
      LastItem(s, s1, ms, front, plan);
    }
  }

  lemma {:induction false} NoWrites(s: RecurringStore)
    ensures AfterApiAll(s, []) == s
  {
  }

  lemma NoOutcomes(s: RecurringStore, plan: MarkPlan)
    requires StoreOk(s)
    ensures AllOutcomes(s, s, [], [], plan)
  {
  }

  /** The last item of such a request. */
  lemma LastItem(s: RecurringStore, s1: RecurringStore, ms: seq<RecurringTask>, front: seq<Reply>, plan: MarkPlan)
    requires StoreOk(s1) && DistinctIds(ms) && ms != [] && ms[|ms| - 1].id in s.live
    requires ItemsDone(s, s1, ms[..|ms| - 1], front, plan)
    ensures var m := ms[|ms| - 1];
      var (s', reply) := IndexIf(s1, m.id, m.version, DocOf(m), Manager, plan.fate(|ms| - 1));
      ItemsDone(s, s', ms, front + [reply], plan)
  {
    hide Valid, IdsOf, DocOf, StoreOk, IndexIf, ItemOutcome, AllOutcomes, DistinctIds;
    var n := |ms| - 1;
    LastIsNew(ms);
    var (s', reply) := IndexIf(s1, ms[n].id, ms[n].version, DocOf(ms[n]), Manager, plan.fate(n));
    IndexTouchesOne(s, s1, ms[n], plan.fate(n));
    AddOutcome(s, s1, s', ms, front, reply, plan);
  }

  lemma IndexTouchesOne(s: RecurringStore, s1: RecurringStore, m: RecurringTask, fate: Fate)
    requires StoreOk(s1) && |s.log| <= |s1.log| && m.id in s.live && m.id in s1.live && s1.live[m.id] == s.live[m.id]
    ensures var (s', reply) := IndexIf(s1, m.id, m.version, DocOf(m), Manager, fate);
      && s'.live.Keys == s1.live.Keys && s1.log <= s'.log
      && (forall id :: id in s'.live ==> s'.live[id] < |s'.log|)
      && (forall id :: id in s1.live && id != m.id ==> s'.live[id] == s1.live[id])
      && ItemOutcome(s, s', m, reply, fate)
  {
    hide Valid, DocOf;
  }

  lemma AddOutcome(s: RecurringStore, s1: RecurringStore, s': RecurringStore, ms: seq<RecurringTask>, front: seq<Reply>,
                   reply: Reply, plan: MarkPlan)
    requires ms != [] && StoreOk(s1) && s1.log <= s'.log && s'.live.Keys == s1.live.Keys
    requires forall id :: id in s'.live ==> s'.live[id] < |s'.log|
    requires forall id :: id in s1.live && id != ms[|ms| - 1].id ==> s'.live[id] == s1.live[id]
    requires forall i :: 0 <= i < |ms| - 1 ==> ms[i].id != ms[|ms| - 1].id
    requires AllOutcomes(s, s1, ms[..|ms| - 1], front, plan)
    requires ms[|ms| - 1].id in s.live && ms[|ms| - 1].id in s'.live
    requires ItemOutcome(s, s', ms[|ms| - 1], reply, plan.fate(|ms| - 1))
    ensures AllOutcomes(s, s', ms, front + [reply], plan)
  {
    hide Valid, DocOf;
    var n := |ms| - 1;
    forall i | 0 <= i < n
      ensures ms[i].id in s.live && ms[i].id in s'.live && ItemOutcome(s, s', ms[i], front[i], plan.fate(i))
    {
      assert ms[..n][i] == ms[i];
      assert ItemOutcome(s, s1, ms[..n][i], front[i], plan.fate(i));
      assert s'.live[ms[i].id] == s1.live[ms[i].id];
    }
  }

  lemma FrontIsDistinct(ms: seq<RecurringTask>)
    requires DistinctIds(ms) && ms != []
    ensures DistinctIds(ms[..|ms| - 1])
  {
  }

  lemma LastIsNew(ms: seq<RecurringTask>)
    requires DistinctIds(ms) && ms != []
    ensures var n := |ms| - 1;
      && IdsOf(ms) == IdsOf(ms[..n]) + {ms[n].id} && ms[n].id !in IdsOf(ms[..n])
      && forall i :: 0 <= i < n ==> ms[i].id != ms[n].id
  {
    var n := |ms| - 1;
    assert ms == ms[..n] + [ms[n]];
    forall u | u in ms[..n]
      ensures u.id != ms[n].id
    {
      var j :| 0 <= j < n && ms[..n][j] == u;
    }
  }

  /** The document under the id of one item, after MarkLoaded with nobody else writing meanwhile: stamped with the
      clock reading and otherwise as in the copy, if the copy was current and its item arrived; as it was, if not. */
  lemma {:induction false} MarkedDocument(s: RecurringStore, loaded: seq<RecurringTask>, plan: MarkPlan, i: nat)
    requires StoreOk(s) && DistinctIds(loaded) && Undisturbing(plan) && i < |loaded|
    requires forall j :: 0 <= j < |loaded| ==> loaded[j].id in s.live
    ensures var s', t := MarkItems(s, MarkedAll(loaded, plan.at), plan).0, loaded[i];
      && StoreOk(s') && s'.live.Keys == s.live.Keys && t.id in s'.live
      && if t.version == s.live[t.id] && !plan.fate(i).Dropped? then
           s'.live[t.id] >= |s.log| && LiveDoc(s', t.id) == RecurringDoc(t.body, t.isDeleted, Some(plan.at))
         else s'.live[t.id] == s.live[t.id] && LiveDoc(s', t.id) == LiveDoc(s, t.id)
  {
    hide Valid, MarkItems, AllOutcomes, DistinctIds, IdsOf;
    var ms := MarkedAll(loaded, plan.at);
    MarkedIds(loaded, plan.at);
    UndisturbedItems(s, ms, plan);
    var (s', replies) := MarkItems(s, ms, plan);
    OutcomeAt(s, s', ms, replies, plan, i);
    assert s'.log[s.live[loaded[i].id]] == s.log[s.live[loaded[i].id]];
  }

  /** What a quiet MarkLoaded does to one item, whose id is not in memory: if the copy is current, its
      document is clean and memory agrees with it; if not, memory takes the copy and the document stays. */
  ghost predicate QuietItem(v: View, v': View, t: RecurringTask)
    requires StoreOk(v.store) && StoreOk(v'.store) && t.id in v.store.live && t.id in v'.store.live
  {
    if t.version == v.store.live[t.id] then
      && v'.store.live[t.id] >= |v.store.log|
      && LiveDoc(v'.store, t.id).body == t.body && LiveDoc(v'.store, t.id).isDeleted == t.isDeleted
      && Clean(v'.store, t.id) && AgreesAt(v'.store, v'.mem, t.id)
    else
      && v'.store.live[t.id] == v.store.live[t.id] && LiveDoc(v'.store, t.id) == LiveDoc(v.store, t.id)
      && (t.id in v'.mem <==> !t.isDeleted)
      && (t.id in v'.mem ==> v'.mem[t.id].version == t.version)
  }

  /** And to an id outside the list. */
  ghost predicate Untouched(v: View, v': View, id: RecurringId)
    requires StoreOk(v.store) && StoreOk(v'.store) && v'.store.live.Keys == v.store.live.Keys
  {
    && (id in v'.mem <==> id in v.mem) && (id in v.mem ==> v'.mem[id] == v.mem[id])
    && (id in v.store.live ==> v'.store.live[id] == v.store.live[id] && LiveDoc(v'.store, id) == LiveDoc(v.store, id))
  }

  lemma QuietMarking(v: View, loaded: seq<RecurringTask>, plan: MarkPlan)
    requires Ready(v, loaded) && QuietMark(plan)
    ensures var c := MarkAsLoaded(v, loaded, plan);
      && !c.failed && c.view.jobs == v.jobs
      && StoreOk(c.view.store) && v.store.log <= c.view.store.log && c.view.store.live.Keys == v.store.live.Keys
      && (loaded == [] ==> c.view == v)
      && (forall t :: t in loaded ==> t.id in v.store.live && QuietItem(v, c.view, t))
      && (forall id :: id !in IdsOf(loaded) ==> Untouched(v, c.view, id))
  {
    hide Valid, MarkItems, Select, Remembered, AgreesAt, Clean, Contained, AllOutcomes, IdsOf;
    var c := MarkAsLoaded(v, loaded, plan);
    if loaded != [] {
      var ms := MarkedAll(loaded, plan.at);
      MarkedIds(loaded, plan.at);
      forall i | 0 <= i < |ms|
        ensures ms[i].id in v.store.live
      {
        assert loaded[i] in loaded;
      }
      UndisturbedItems(v.store, ms, plan);
      var (s', replies) := MarkItems(v.store, ms, plan);
      QuietReplies(v.store, s', ms, replies, plan);
      NothingMissing(ms, replies);
      EmptyIdsOf();
      assert v.jobs - {} == v.jobs;
      forall t | t in loaded
        ensures t.id in v.store.live && QuietItem(v, c.view, t)
      {
        var i :| 0 <= i < |loaded| && loaded[i] == t;
        OutcomeAt(v.store, s', ms, replies, plan, i);
        NotInMemory(v, loaded, i);
        QuietlyMarkedItem(v, s', ms, t, replies, i, plan);
      }
      forall id | id !in IdsOf(loaded)
        ensures Untouched(v, c.view, id)
      {
        RememberedOther(v.mem, ms, replies, id);
        if id in v.store.live { assert s'.log[v.store.live[id]] == v.store.log[v.store.live[id]]; }
      }
    } else {
      EmptyIdsOf();
    }
  }

  lemma EmptyIdsOf()
    ensures IdsOf([]) == {}
  {
  }

  lemma NotInMemory(v: View, loaded: seq<RecurringTask>, i: nat)
    requires v.mem.Keys !! IdsOf(loaded) && i < |loaded|
    ensures loaded[i].id !in v.mem
  {
    assert loaded[i] in loaded && loaded[i].id in IdsOf(loaded);
  }

  lemma OutcomeAt(s: RecurringStore, s': RecurringStore, ms: seq<RecurringTask>, replies: seq<Reply>, plan: MarkPlan,
                  i: nat)
    requires (forall id :: id in s'.live ==> s'.live[id] < |s'.log|) && AllOutcomes(s, s', ms, replies, plan)
               && i < |ms|
    ensures |replies| == |ms| && ms[i].id in s.live && ms[i].id in s'.live
    ensures ItemOutcome(s, s', ms[i], replies[i], plan.fate(i))
  {
  }

  lemma QuietReplies(s: RecurringStore, s': RecurringStore, ms: seq<RecurringTask>, replies: seq<Reply>, plan: MarkPlan)
    requires (forall id :: id in s'.live ==> s'.live[id] < |s'.log|) && AllOutcomes(s, s', ms, replies, plan)
    ensures |replies| == |ms| && forall i :: 0 <= i < |ms| ==> replies[i] != Missing
  {
    forall i | 0 <= i < |ms|
      ensures replies[i] != Missing
    {
      assert ItemOutcome(s, s', ms[i], replies[i], plan.fate(i));
    }
  }

  lemma {:induction false} NothingMissing(ms: seq<RecurringTask>, replies: seq<Reply>)
    requires |ms| == |replies| && forall i :: 0 <= i < |ms| ==> replies[i] != Missing
    ensures Select(ms, replies, NotFounds) == []
  {
    if ms != [] { NothingMissing(ms[..|ms| - 1], replies[..|ms| - 1]); }
  }

  lemma QuietlyMarkedItem(v: View, s': RecurringStore, ms: seq<RecurringTask>, t: RecurringTask, replies: seq<Reply>,
                          i: nat, plan: MarkPlan)
    requires StoreOk(v.store) && StoreOk(s') && v.store.log <= s'.log
    requires |ms| == |replies| && i < |ms| && DistinctIds(ms) && ms[i] == Marked(t, plan.at)
    requires t.id in v.store.live && t.id in s'.live && t.id !in v.mem && QuietMark(plan)
    requires ItemOutcome(v.store, s', ms[i], replies[i], plan.fate(i))
    ensures QuietItem(v, View(s', Remembered(v.mem, ms, replies), v.jobs), t)
  {
    hide Valid, Remembered, DistinctIds;
    RememberedItem(v.mem, ms, replies, i);
    assert plan.fate(i).Served?;
    assert s'.log[v.store.live[t.id]] == v.store.log[v.store.live[t.id]];
  }

  /** What a quiet MarkLoaded of current copies does to one id. */
  ghost predicate QuietlyMarked(v: View, v': View, ids: set<RecurringId>, id: RecurringId)
    requires StoreOk(v.store) && StoreOk(v'.store) && v'.store.live.Keys == v.store.live.Keys
               && ids <= v.store.live.Keys
  {
    if id in ids then
      && v'.store.live[id] >= |v.store.log|
      && Clean(v'.store, id) && AgreesAt(v'.store, v'.mem, id)
      && LiveDoc(v'.store, id).body == LiveDoc(v.store, id).body
      && LiveDoc(v'.store, id).isDeleted == LiveDoc(v.store, id).isDeleted
    else Untouched(v, v', id)
  }

  lemma QuietListing(v: View, loaded: seq<RecurringTask>, ids: set<RecurringId>, plan: MarkPlan)
    requires Ready(v, loaded) && QuietMark(plan) && ids <= v.store.live.Keys && Lists(v.store, loaded, ids)
    ensures var c := MarkAsLoaded(v, loaded, plan);
      && !c.failed && c.view.jobs == v.jobs
      && StoreOk(c.view.store) && v.store.log <= c.view.store.log && c.view.store.live.Keys == v.store.live.Keys
      && (if ids == {} then c.view == v else |c.view.store.log| > |v.store.log|)
      && (forall id :: QuietlyMarked(v, c.view, ids, id))
  {
    hide Valid, MarkAsLoaded, AgreesAt, Clean, Contained, PastCopies, Untouched;
    QuietMarking(v, loaded, plan);
    ListsPast(v.store, loaded, ids);
    EmptyList(loaded);
    var c := MarkAsLoaded(v, loaded, plan);
    forall id
      ensures QuietlyMarked(v, c.view, ids, id)
    {
      if id in ids {
        InList(v.store, loaded, ids, CopyOf(v.store, id));
        assert QuietItem(v, c.view, CopyOf(v.store, id));
      }
    }
    if ids != {} { assert QuietItem(v, c.view, loaded[0]); }
  }

  /** The same documents, apart from their versions and markers. */
  ghost predicate SameDocs(s: RecurringStore, s': RecurringStore) {
    && StoreOk(s) && StoreOk(s') && s.live.Keys == s'.live.Keys
    && forall id :: id in s.live ==>
        LiveDoc(s', id).body == LiveDoc(s, id).body && LiveDoc(s', id).isDeleted == LiveDoc(s, id).isDeleted
  }

  lemma MarkingKeepsDocs(v: View, v': View, ids: set<RecurringId>, parses: string -> bool)
    requires StoreOk(v.store) && StoreOk(v'.store) && v'.store.live.Keys == v.store.live.Keys
               && ids <= v.store.live.Keys
    requires forall id :: QuietlyMarked(v, v', ids, id)
    ensures SameDocs(v.store, v'.store)
    ensures UndeletedIds(v'.store) == UndeletedIds(v.store) && Runnable(v'.store, parses) == Runnable(v.store, parses)
  {
    hide Valid, AgreesAt, Clean;
    forall id | id in v.store.live
      ensures LiveDoc(v'.store, id).body == LiveDoc(v.store, id).body
                && LiveDoc(v'.store, id).isDeleted == LiveDoc(v.store, id).isDeleted
    {
      assert QuietlyMarked(v, v', ids, id);
    }
  }
}
