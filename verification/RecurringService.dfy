/**
The service of recurring tasks as it is written (internal/infra/elasticsearch/task/recurring/service.go):
the calls that the manager makes, and the calls that API users make.
*/
module RecurringService {
  import opened Wrappers
  import opened VersionedStore
  import opened RecurringStore
  import opened RecurringSync

  datatype ApiError = NotFound | AlreadyExists | InvalidVersion | Unexpected

  /** The four lists of one MarkLoaded. */
  datatype MultiUpdateResult = MultiUpdateResult(
    successes: seq<RecurringTask>,
    versionConflicts: seq<RecurringTask>,
    notFounds: seq<RecurringTask>,
    others: seq<RecurringTask>)

  /** The index of recurring tasks as one service instance sees it; other writers move it too. */
  class RecurringIndex {
    var store: RecurringStore

    constructor (store: RecurringStore)
      ensures this.store == store
    {
      this.store := store;
    }

    /** What other users write while a call is under way. */
    method Interfere(writes: seq<ApiWrite>)
      modifies this
      ensures store == AfterApiAll(old(store), writes)
    {
      store := AfterApiAll(store, writes);
    }

    method SearchAll(read: ReadPlan) returns (all: Option<seq<RecurringTask>>)
      requires StoreOk(store)
      modifies this
      ensures StoreOk(store) && store == AfterApiAll(old(store), read.before)
      ensures all == if read.fails then None else Some(All(store))
    {
      ghost var before := store;
      Interfere(read.before);
      ApiAllOnlyDirties(before, read.before);
      all := if read.fails then None else Some(All(store));
    }

    /** The index is not refreshed first. */
    method SearchNotLoaded(read: ReadPlan) returns (notLoaded: Option<seq<RecurringTask>>)
      requires StoreOk(store)
      modifies this
      ensures StoreOk(store) && store == AfterApiAll(old(store), read.before)
      ensures notLoaded == if read.fails then None else Some(SeenNotLoaded(store, read))
    {
      ghost var before := store;
      Interfere(read.before);
      ApiAllOnlyDirties(before, read.before);
      notLoaded := if read.fails then None else Some(SeenNotLoaded(store, read));
    }

    /** The bulk request: every item is an index operation conditional on the version that it carries. */
    method Bulk(items: seq<RecurringTask>, plan: MarkPlan) returns (replies: seq<Reply>)
      modifies this
      ensures (store, replies) == MarkItems(old(store), items, plan) && |replies| == |items|
    {
      ghost var before := store;
      replies := [];
      for i := 0 to |items|
        invariant (store, replies) == MarkItems(before, items[..i], plan) && |replies| == i
      {
        assert items[..i + 1][..i] == items[..i];
        Interfere(plan.before(i));
        var (after, reply) := IndexIf(store, items[i].id, items[i].version, DocOf(items[i]), Manager, plan.fate(i));
        store := after;
        replies := replies + [reply];
      }
      assert items[..|items|] == items;
    }

    /** Stamps the given tasks where they are, sends them, and sorts them by how their items went. */
    method MarkLoaded(toMarks: array<RecurringTask>, plan: MarkPlan) returns (result: Option<MultiUpdateResult>)
      requires StoreOk(store)
      modifies this, toMarks
      ensures toMarks[..] == MarkedAll(old(toMarks[..]), plan.at)
      ensures var (s, replies) := MarkItems(old(store), toMarks[..], plan);
        && |replies| == toMarks.Length
        && store == (if plan.fails && !plan.tookEffect then AfterApiAll(old(store), plan.before(0)) else s)
        && result == if plan.fails then None else Some(MultiUpdateResult(
                       Select(toMarks[..], replies, Successes),
                       Select(toMarks[..], replies, VersionConflicts),
                       Select(toMarks[..], replies, NotFounds),
                       Select(toMarks[..], replies, Others)))
    {
      ghost var tasks := toMarks[..];
      for i := 0 to toMarks.Length
        invariant toMarks[..i] == MarkedAll(tasks, plan.at)[..i]
        invariant toMarks[i..] == tasks[i..]
        invariant store == old(store)
      {
        assert toMarks[i] == toMarks[i..][0] == tasks[i];
        toMarks[i] := Marked(toMarks[i], plan.at);
      }
      assert toMarks[..] == MarkedAll(tasks, plan.at);
      MarkItemsGrow(store, toMarks[..], plan);
      if plan.fails {
        if plan.tookEffect {
          var _ := Bulk(toMarks[..], plan);
        } else {
          Interfere(plan.before(0));
        }
        return None;
      }
      var replies := Bulk(toMarks[..], plan);
      var r := Sort(toMarks[..], replies);
      return Some(r);
    }

    /** The loop over the bulk response. */
    method Sort(ms: seq<RecurringTask>, replies: seq<Reply>) returns (r: MultiUpdateResult)
      requires |ms| == |replies|
      ensures r == MultiUpdateResult(Select(ms, replies, Successes), Select(ms, replies, VersionConflicts),
                                     Select(ms, replies, NotFounds), Select(ms, replies, Others))
    {
      r := MultiUpdateResult([], [], [], []);
      for i := 0 to |ms|
        invariant r == MultiUpdateResult(
                         Select(ms[..i], replies[..i], Successes), Select(ms[..i], replies[..i], VersionConflicts),
                         Select(ms[..i], replies[..i], NotFounds), Select(ms[..i], replies[..i], Others))
      {
        assert ms[..i + 1][..i] == ms[..i] && replies[..i + 1][..i] == replies[..i];
        match replies[i] {
          case Committed(version) => r := r.(successes := r.successes + [ms[i].(version := version)]);
          case Missing => r := r.(notFounds := r.notFounds + [ms[i]]);
          case Conflict => r := r.(versionConflicts := r.versionConflicts + [ms[i]]);
          case Errored => r := r.(others := r.others + [ms[i]]);
        }
      }
      assert ms[..|ms|] == ms && replies[..|ms|] == replies;
    }

    // ---- the calls that API users make ----

    method Get(id: RecurringId, includeSoftDeleted: bool, fails: bool) returns (r: Result<RecurringTask, ApiError>)
      requires StoreOk(store)
      ensures r == if fails then Failure(Unexpected)
                else if id in store.live && (includeSoftDeleted || !LiveDoc(store, id).isDeleted)
                  then Success(CopyOf(store, id))
                else Failure(NotFound)
    {
      if fails {
        return Failure(Unexpected);
      }
      if id !in store.live || (LiveDoc(store, id).isDeleted && !includeSoftDeleted) {
        return Failure(NotFound);
      }
      return Success(CopyOf(store, id));
    }

    /** Clears the marker and writes, conditional on the version that the copy carries. */
    method Update(t: RecurringTask, fate: Fate) returns (r: Result<RecurringTask, ApiError>)
      modifies this
      ensures store == if fate.Dropped? || !Holds(old(store), t.id, t.version) then old(store)
                       else Put(old(store), t.id, RecurringDoc(t.body, t.isDeleted, None), Api)
      ensures Readable(old(store), t.id, t.version) && !t.isDeleted && !fate.Dropped? ==>
                store == AfterApi(old(store), ApiUpdate(t.id, t.version, t.body))
      ensures r.Success? <==> fate.Served? && Holds(old(store), t.id, t.version)
      ensures r.Success? ==> r.value == t.(loadedAt := None, version := |old(store).log|)
      ensures r.Failure? && fate.Served? ==> r.error == NotFound || r.error == InvalidVersion
    {
      var update := t.(loadedAt := None);
      var (after, reply) := IndexIf(store, t.id, t.version, DocOf(update), Api, fate);
      store := after;
      match reply
      case Committed(version) => r := Success(update.(version := version));
      case Conflict => r := Failure(InvalidVersion);
      case Missing => r := Failure(NotFound);
      case Errored => r := Failure(Unexpected);
    }

    /** Reads, and if there is something to delete, writes it back marked as deleted: one ApiDelete. */
    method Delete(id: RecurringId, getFails: bool, between: seq<ApiWrite>, fate: Fate)
      returns (r: Result<RecurringTask, ApiError>)
      requires StoreOk(store)
      modifies this
      ensures if getFails then store == old(store) && r == Failure(Unexpected)
              else if id !in old(store).live || LiveDoc(old(store), id).isDeleted
                then store == old(store) && r == Failure(NotFound)
              else
                var version, mid := old(store).live[id], AfterApiAll(old(store), between);
                && store == (if fate.Dropped? then mid else AfterApi(mid, ApiDelete(id, version)))
                && (r.Success? <==> fate.Served? && Holds(mid, id, version))
                && (r.Success? ==>
                      && id in store.live && store.live[id] < |store.log|
                      && r.value == CopyOf(store, id)
                      && LiveDoc(store, id) == RecurringDoc(LiveDoc(old(store), id).body, true, None))
    {
      var existing := Get(id, false, getFails);
      if existing.Failure? {
        return existing;
      }
      ghost var before := store;
      Interfere(between);
      ApiAllOnlyDirties(before, between);
      assert store.log[existing.value.version] == before.log[existing.value.version];
      r := Update(existing.value.(isDeleted := true), fate);
    }

    /** Creates; over a soft-deleted document, reindexes without a version check. */
    method Create(id: RecurringId, body: Body, fate: Fate, beforeGet: seq<ApiWrite>, getFails: bool,
                  beforeReindex: seq<ApiWrite>, reindexFate: Fate)
      returns (r: Result<RecurringTask, ApiError>)
      requires StoreOk(store)
      modifies this
      ensures fate.Dropped? ==> store == old(store) && r == Failure(Unexpected)
      ensures fate.AckLost? ==> store == AfterApi(old(store), ApiCreate(id, body)) && r == Failure(Unexpected)
      ensures fate.Served? && id !in old(store).live ==>
                store == AfterApi(old(store), ApiCreate(id, body)) && r.Success?
      ensures fate.Served? && id in old(store).live ==>
                var mid := AfterApiAll(old(store), beforeGet);
                && id in mid.live && mid.live[id] < |mid.log|
                && (if getFails then store == mid && r == Failure(Unexpected)
                    else if LiveDoc(mid, id).isDeleted then
                      var mid2 := AfterApiAll(mid, beforeReindex);
                      && store == (if reindexFate.Dropped? then mid2 else AfterApi(mid2, ApiReindex(id, body)))
                      && (r.Success? <==> reindexFate.Served?)
                    else store == mid && r == Failure(AlreadyExists))
      ensures r.Success? ==>
        && id in store.live && store.live[id] < |store.log|
        && r.value == CopyOf(store, id) && LiveDoc(store, id) == RecurringDoc(body, false, None)
    {
      hide StoreOk, AfterApiAll;
      ghost var before := store;
      var (created, reply) := CreateIf(store, id, Fresh(body), Api, fate);
      store := created;
      match reply {
        case Committed(version) =>
          return Success(RecurringTask(id, body, false, None, version));
        case Missing =>
          assert false;
        case Errored =>
          return Failure(Unexpected);
        case Conflict =>
          InterferenceGrows(before, beforeGet);
          Interfere(beforeGet);
          ghost var mid := store;
          var existing := Get(id, true, getFails);
          if existing.Failure? || !existing.value.isDeleted {
            return if existing.Failure? then existing else Failure(AlreadyExists);
          }
          InterferenceGrows(mid, beforeReindex);
          Interfere(beforeReindex);
          if reindexFate.Dropped? {
            return Failure(Unexpected);
          }
          store := Put(store, id, Fresh(body), Api);
          if reindexFate.AckLost? {
            return Failure(Unexpected);
          }
          return Success(RecurringTask(id, body, false, None, |store.log| - 1));
      }
    }
  }
}
