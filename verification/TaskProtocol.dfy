/**
Any number of servers working on one task store.

A server that reports, completes, claims, unclaims, reaps or archives first obtains a copy of a
document, by a get or by a search that may be out of date, and later writes conditionally on the
version of that copy. In between, every other server may act. Whatever was written once may
therefore be held by someone: an Attempt names any version ever written, applies one transition to
the document of that version and tries to commit the result. Runs of such actions cover every
interleaving; TaskService.dfy and ClaimService.dfy prove that the service's own code performs
nothing else.
*/
module TaskProtocol {
  import opened Wrappers
  import opened VersionedStore
  import opened Tasks
  import opened TaskPersistence

  datatype Key = Key(queue: string, id: string)

  datatype Cause = Created(newTask: NewTask, at: Time) | By(op: Op)

  type TaskStore = Store<Key, PersistedTask, Cause>

  datatype World = World(store: TaskStore, archive: multiset<PersistedTask>)

  datatype Action =
    | Create(newTask: NewTask, id: string, now: Time, fate: Fate)
    | Attempt(version: Version, op: Op, fate: Fate)
    | Archive(version: Version, completedBefore: Time, deleteFate: Fate, inserted: bool)

  function Initial(): World { World(Empty(), multiset{}) }

  /** Claims and reaps act on search hits only. A claim is stamped no earlier than its search. */
  predicate Eligible(op: Op, doc: PersistedTask) {
    match op
    case ClaimBy(_, searchedAt, at) => Claimable(doc, searchedAt) && searchedAt <= at
    case Reap(now, _) => TimedOut(doc, now)
    case _ => true
  }

  function Step(w: World, a: Action): World {
    match a
    case Create(n, id, now, fate) =>
      w.(store := CreateIf(w.store, Key(n.queue, id), NewDocument(n, id, now), Created(n, now), fate).0)
    case Attempt(v, op, fate) =>
      if v < |w.store.log| && Eligible(op, w.store.log[v].doc) then
        match Apply(op, ToDomainTask(w.store.log[v].doc))
        case Success(t) => w.(store := IndexIf(w.store, w.store.log[v].key, v, ToPersistedTask(t), By(op), fate).0)
        case Failure(_) => w
      else w
    case Archive(v, completedBefore, deleteFate, inserted) =>
      if v < |w.store.log| && Archivable(w.store.log[v].doc, completedBefore) then
        World(
          DeleteIf(w.store, w.store.log[v].key, v, deleteFate).0,
          if inserted then w.archive + multiset{w.store.log[v].doc} else w.archive)
      else w
  }

  function Run(w: World, actions: seq<Action>): World
    decreases actions
  {
    if actions == [] then w else Run(Step(w, actions[0]), actions[1..])
  }

  /** The log is append-only. */
  lemma StepGrows(w: World, a: Action)
    ensures w.store.log <= Step(w, a).store.log
  {
    hide Eligible, Apply, NewDocument, ToDomainTask, ToPersistedTask, Archivable;
  }

  lemma {:induction false} RunConcat(w: World, a: seq<Action>, b: seq<Action>)
    ensures Run(w, a + b) == Run(Run(w, a), b)
    decreases a
  {
    if a == [] {
      assert a + b == b;
    } else {
      assert (a + b)[1..] == a[1..] + b;
      RunConcat(Step(w, a[0]), a[1..], b);
    }
  }

  lemma {:induction false} RunNothing(w: World)
    ensures Run(w, []) == w
  {
  }

  lemma {:induction false} RunOne(w: World, a: Action)
    ensures Run(w, [a]) == Step(w, a)
  {
    assert Run(Step(w, a), []) == Step(w, a);
  }

  // ---- the invariant ----

  function TaskAt(s: TaskStore, v: Version): Task
    requires v < |s.log|
  {
    ToDomainTask(s.log[v].doc)
  }

  /** The write at version v is either a creation under a free key, or exactly one transition applied
      to the document it replaced. */
  ghost predicate OneTransition(s: TaskStore, v: Version)
    requires v < |s.log|
  {
    match s.log[v].cause
    case Created(n, now) =>
      s.log[v].replaced == None && s.log[v].doc == NewDocument(n, s.log[v].key.id, now)
    case By(op) =>
      && s.log[v].replaced.Some?
      && var p := s.log[v].replaced.value;
         && p < v
         && Eligible(op, s.log[p].doc)
         && Apply(op, TaskAt(s, p)) == Success(TaskAt(s, v))
  }

  ghost predicate EntryOk(s: TaskStore, v: Version)
    requires v < |s.log|
  {
    && s.log[v].key == Key(s.log[v].doc.queue, s.log[v].doc.id)
    && WellFormed(TaskAt(s, v))
    && OneTransition(s, v)
  }

  ghost predicate Inv(w: World) {
    && Valid(w.store)
    && (forall v :: 0 <= v < |w.store.log| ==> EntryOk(w.store, v))
    && (forall d :: d in w.archive ==> d.state in {DONE, DEAD})
  }

  lemma PutKeepsInv(w: World, k: Key, doc: PersistedTask, cause: Cause)
    requires Inv(w)
    requires k == Key(doc.queue, doc.id) && WellFormed(ToDomainTask(doc))
    requires match cause
             case Created(n, now) => k !in w.store.live && doc == NewDocument(n, k.id, now)
             case By(op) =>
               && k in w.store.live
               && w.store.live[k] < |w.store.log|
               && Eligible(op, w.store.log[w.store.live[k]].doc)
               && Apply(op, TaskAt(w.store, w.store.live[k])) == Success(ToDomainTask(doc))
    ensures Inv(w.(store := Put(w.store, k, doc, cause)))
  {
    PutKeepsValid(w.store, k, doc, cause);
    var s := Put(w.store, k, doc, cause);
    forall v | 0 <= v < |s.log|
      ensures EntryOk(s, v)
    {
      if v < |w.store.log| { assert EntryOk(w.store, v); }
    }
  }

  /** Nothing whose retry count leaves no room for an attempt is eligible for a claim. */
  lemma EligibleKeepsWellFormed(op: Op, doc: PersistedTask)
    requires WellFormed(ToDomainTask(doc)) && Eligible(op, doc) && Apply(op, ToDomainTask(doc)).Success?
    ensures op.ClaimBy? ==> HasRoom(doc.retryTimes)
    ensures WellFormed(Apply(op, ToDomainTask(doc)).value)
    ensures SameIdentity(ToDomainTask(doc), Apply(op, ToDomainTask(doc)).value)
  {
    if op.ClaimBy? { FilterHidesNoLiveTask(doc, op.searchedAt); }
    ApplyKeepsWellFormed(op, ToDomainTask(doc));
  }

  lemma AttemptKeepsInv(w: World, v: Version, op: Op, fate: Fate)
    requires Inv(w)
    ensures Inv(Step(w, Attempt(v, op, fate)))
  {
    var s := w.store;
    if v < |s.log| && Eligible(op, s.log[v].doc) && Apply(op, TaskAt(s, v)).Success? {
      assert EntryOk(s, v);
      var t := Apply(op, TaskAt(s, v)).value;
      EligibleKeepsWellFormed(op, s.log[v].doc);
      PersistThenReload(t);
      if Holds(s, s.log[v].key, v) {
        PutKeepsInv(w, s.log[v].key, ToPersistedTask(t), By(op));
      }
    }
  }

  lemma DeleteKeepsInv(w: World, k: Key)
    requires Inv(w)
    ensures Inv(w.(store := w.store.(live := w.store.live - {k})))
  {
    DeleteKeepsValid(w.store, k);
    var w' := w.(store := w.store.(live := w.store.live - {k}));
    forall u | 0 <= u < |w'.store.log|
      ensures EntryOk(w'.store, u)
    {
      assert EntryOk(w.store, u);
    }
  }

  lemma CreateKeepsInv(w: World, n: NewTask, id: string, now: Time)
    requires Inv(w) && Key(n.queue, id) !in w.store.live
    ensures Inv(w.(store := Put(w.store, Key(n.queue, id), NewDocument(n, id, now), Created(n, now))))
  {
    hide Valid, EntryOk;
    NewDocumentIsWellFormed(n, id, now);
    PutKeepsInv(w, Key(n.queue, id), NewDocument(n, id, now), Created(n, now));
  }

  lemma ArchiveKeepsInv(w: World, v: Version, completedBefore: Time, deleteFate: Fate, inserted: bool)
    requires Inv(w)
    ensures Inv(Step(w, Archive(v, completedBefore, deleteFate, inserted)))
  {
    hide Valid, EntryOk;
    if v < |w.store.log| { DeleteKeepsInv(w, w.store.log[v].key); }
  }

  lemma StepKeepsInv(w: World, a: Action)
    requires Inv(w)
    ensures Inv(Step(w, a))
  {
    hide Inv, NewDocument;
    match a
    case Create(n, id, now, fate) =>
      if Key(n.queue, id) !in w.store.live { CreateKeepsInv(w, n, id, now); }
    case Attempt(v, op, fate) =>
      AttemptKeepsInv(w, v, op, fate);
    case Archive(v, completedBefore, deleteFate, inserted) =>
      ArchiveKeepsInv(w, v, completedBefore, deleteFate, inserted);
  }

  lemma {:induction false} RunKeepsInv(w: World, actions: seq<Action>)
    requires Inv(w)
    ensures Inv(Run(w, actions))
    decreases actions
  {
    if actions != [] {
      StepKeepsInv(w, actions[0]);
      RunKeepsInv(Step(w, actions[0]), actions[1..]);
    }
  }

  lemma {:induction false} ReachableInv(actions: seq<Action>)
    ensures Inv(Run(Initial(), actions))
  {
    RunKeepsInv(Initial(), actions);
  }
}
