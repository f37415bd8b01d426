/**
The three jobs the leader runs over the task store: failing timed-out tasks, archiving finished
ones, and enqueuing a recurring task unless one is still outstanding.
*/
module TaskMaintenance {
  import opened Wrappers
  import opened VersionedStore
  import opened Tasks
  import opened TaskPersistence
  import opened TaskProtocol

  // ---- reaping ----

  /** An item of the reaper's bulk requests: it fails one scanned copy with the pass's clock reading. */
  predicate IsReap(a: Action, now: Time) { a.Attempt? && a.op.Reap? && a.op.at == now }

  /** A pass of such items alone. */
  ghost predicate IsReapPass(pass: seq<Action>, now: Time) {
    forall i :: 0 <= i < |pass| ==> IsReap(pass[i], now)
  }

  /** The action writes no document that is already timed out by the pass's clock. */
  ghost predicate Harmless(w: World, a: Action, now: Time) {
    |Step(w, a).store.log| > |w.store.log| ==> !TimedOut(Step(w, a).store.log[|w.store.log|].doc, now)
  }

  /** A pass among the actions of others, each of them harmless when it is taken. */
  ghost predicate IsReapRun(w: World, run: seq<Action>, now: Time)
    decreases run
  {
    run != [] ==>
      && (IsReap(run[0], now) || Harmless(w, run[0], now))
      && IsReapRun(Step(w, run[0]), run[1..], now)
  }

  ghost predicate NothingTimedOut(w: World, now: Time)
    requires Valid(w.store)
  {
    forall k :: k in w.store.live ==> LiveOk(w.store, k) && !TimedOut(w.store.log[w.store.live[k]].doc, now)
  }

  /** The scan found every timed-out task, and the items for them arrive. */
  ghost predicate CoversTimedOut(w: World, run: seq<Action>, now: Time)
    requires Valid(w.store)
  {
    forall k :: k in w.store.live ==> LiveOk(w.store, k) && (TimedOut(w.store.log[w.store.live[k]].doc, now) ==>
      exists i :: 0 <= i < |run| && Reaps(run[i], w.store.live[k], now))
  }

  predicate Reaps(a: Action, v: Version, now: Time) { IsReap(a, now) && a.version == v && !a.fate.Dropped? }

  /** Others do no harm as long as the deadlines they set, by claiming or reporting, are still to come. */
  lemma FutureDeadlinesAreHarmless(w: World, a: Action, now: Time)
    requires Inv(w)
    requires a.Attempt? && a.version < |w.store.log| && (a.op.ClaimBy? || a.op.ReportBy?) ==>
               a.op.at + w.store.log[a.version].doc.processingTimeout > now
    ensures Harmless(w, a, now)
  {
    hide Valid;
    if a.Attempt? && a.version < |w.store.log| {
      assert EntryOk(w.store, a.version);
      var t := TaskAt(w.store, a.version);
      if Apply(a.op, t).Success? && Apply(a.op, t).value.state == CLAIMED { SettingDeadlines(a.op, t); }
    }
  }

  lemma SettingDeadlines(op: Op, t: Task)
    requires WellFormed(t) && Apply(op, t).Success? && Apply(op, t).value.state == CLAIMED
    ensures op.ClaimBy? || op.ReportBy?
    ensures Apply(op, t).value.lastClaimed.Some?
    ensures Apply(op, t).value.lastClaimed.value.timesOutAt == op.at + t.processingTimeout
  {
  }

  /** A pass whose scan saw every timed-out task leaves no task timed out, even if the scan also returned
      out-of-date copies, and whatever harmless things others do before, between and after its items. */
  lemma {:induction false} ReapPassCatchesAll(w: World, run: seq<Action>, now: Time)
    requires Inv(w) && IsReapRun(w, run, now) && CoversTimedOut(w, run, now)
    ensures Inv(Run(w, run)) && NothingTimedOut(Run(w, run), now)
    decreases run
  {
    hide Inv, Step, LiveOk, TimedOut, Harmless;
    if run == [] {
      InvIsValid(w);
    } else {
      StepKeepsInv(w, run[0]);
      ReapRunCovers(w, run, now);
      ReapPassCatchesAll(Step(w, run[0]), run[1..], now);
    }
  }

  lemma InvIsValid(w: World)
    requires Inv(w)
    ensures Valid(w.store)
  {
  }

  /** An action leaves each live document as it is, or writes a new one, or removes it. */
  lemma StepAt(w: World, a: Action, k: Key)
    requires Inv(w) && k in Step(w, a).store.live
    ensures w.store.log <= Step(w, a).store.log
    ensures || (k in w.store.live && Step(w, a).store.live[k] == w.store.live[k])
            || (Step(w, a).store.live[k] == |w.store.log| && |Step(w, a).store.log| == |w.store.log| + 1)
  {
    hide Inv, Apply, Eligible, NewDocument, ToDomainTask, ToPersistedTask, Archivable;
  }

  /** One reap either changes nothing or replaces one live document by one that is not CLAIMED; and a
      reap that is handled does the latter to a live timed-out copy. */
  lemma ReapEffect(w: World, v: Version, op: Op, fate: Fate)
    requires Inv(w) && op.Reap?
    ensures var w' := Step(w, Attempt(v, op, fate));
      || w'.store == w.store
      || (&& v < |w.store.log|
          && Holds(w.store, w.store.log[v].key, v)
          && |w'.store.log| == |w.store.log| + 1
          && w'.store.log[..|w.store.log|] == w.store.log
          && w'.store.live == w.store.live[w.store.log[v].key := |w.store.log|]
          && w'.store.log[|w.store.log|].doc.state != CLAIMED)
    ensures (&& v < |w.store.log| && Holds(w.store, w.store.log[v].key, v)
             && TimedOut(w.store.log[v].doc, op.at) && !fate.Dropped?)
      ==> Step(w, Attempt(v, op, fate)).store != w.store
  {
    if v < |w.store.log| {
      assert EntryOk(w.store, v);
      ApplySucceedsExactlyWhen(op, TaskAt(w.store, v));
    }
  }

  /** A reap of a live timed-out document that arrives replaces it. */
  lemma ReapReplaces(w: World, a: Action, k: Key, now: Time)
    requires Inv(w) && k in w.store.live && LiveOk(w.store, k)
    requires Reaps(a, w.store.live[k], now) && TimedOut(w.store.log[w.store.live[k]].doc, now)
    ensures k in Step(w, a).store.live && Step(w, a).store.live[k] == |w.store.log|
  {
    ReapEffect(w, a.version, a.op, a.fate);
  }

  lemma NewDocumentIsHarmless(w: World, a: Action, now: Time)
    requires Inv(w) && (IsReap(a, now) || Harmless(w, a, now))
    ensures Harmless(w, a, now)
  {
    if IsReap(a, now) { ReapEffect(w, a.version, a.op, a.fate); }
  }

  lemma {:induction false} ReapRunCovers(w: World, run: seq<Action>, now: Time)
    requires Inv(w) && run != [] && IsReapRun(w, run, now) && CoversTimedOut(w, run, now)
    requires Inv(Step(w, run[0]))
    ensures CoversTimedOut(Step(w, run[0]), run[1..], now)
  {
    var a, w' := run[0], Step(w, run[0]);
    NewDocumentIsHarmless(w, a, now);
    forall k | k in w'.store.live
      ensures LiveOk(w'.store, k)
      ensures TimedOut(w'.store.log[w'.store.live[k]].doc, now) ==>
                exists i :: 0 <= i < |run[1..]| && Reaps(run[1..][i], w'.store.live[k], now)
    {
      LiveIsOk(w', k);
      StepAt(w, a, k);
      hide Inv, Step, LiveOk, TimedOut;
      if TimedOut(w'.store.log[w'.store.live[k]].doc, now) {
        StillCovered(w, run, k, now);
      }
    }
  }

  lemma LiveIsOk(w: World, k: Key)
    requires Inv(w) && k in w.store.live
    ensures LiveOk(w.store, k) && w.store.live[k] < |w.store.log|
  {
  }

  lemma StillCovered(w: World, run: seq<Action>, k: Key, now: Time)
    requires Inv(w) && run != [] && CoversTimedOut(w, run, now) && Inv(Step(w, run[0])) && Harmless(w, run[0], now)
    requires var w' := Step(w, run[0]);
      && w.store.log <= w'.store.log
      && k in w'.store.live && w'.store.live[k] < |w'.store.log| && TimedOut(w'.store.log[w'.store.live[k]].doc, now)
      && (|| (k in w.store.live && w'.store.live[k] == w.store.live[k])
          || (w'.store.live[k] == |w.store.log| && |w'.store.log| == |w.store.log| + 1))
    ensures exists i :: 0 <= i < |run[1..]| && Reaps(run[1..][i], Step(w, run[0]).store.live[k], now)
  {
    hide Inv, Step, TimedOut;
    var w' := Step(w, run[0]);
    assert w'.store.live[k] != |w.store.log|;
    LiveIsOk(w, k);
    assert w'.store.log[w.store.live[k]] == w.store.log[w.store.live[k]];
    var i :| 0 <= i < |run| && Reaps(run[i], w.store.live[k], now);
    if i == 0 {
      ReapReplaces(w, run[0], k, now);
      assert false;
    } else {
      assert run[1..][i - 1] == run[i];
    }
  }

  /** The actions of the others alone. */
  function WithoutReaps(run: seq<Action>, now: Time): seq<Action> {
    if run == [] then []
    else (if IsReap(run[0], now) then [] else [run[0]]) + WithoutReaps(run[1..], now)
  }

  /** A second pass with the same clock reading changes nothing, whatever its scan returns and whatever
      harmless things others do meanwhile: the outcome is what the others bring about on their own. */
  lemma {:induction false} SecondReapPassChangesNothing(w: World, run: seq<Action>, now: Time)
    requires Inv(w) && IsReapRun(w, run, now) && NothingTimedOut(w, now)
    ensures Run(w, run) == Run(w, WithoutReaps(run, now))
    decreases run
  {
    hide Inv, Step, LiveOk, TimedOut, Harmless;
    if run != [] {
      StepKeepsInv(w, run[0]);
      if IsReap(run[0], now) {
        ReapOfNothing(w, run[0], now);
        SecondReapPassChangesNothing(w, run[1..], now);
        assert [] + WithoutReaps(run[1..], now) == WithoutReaps(run[1..], now);
      } else {
        HarmlessKeepsNothingTimedOut(w, run[0], now);
        SecondReapPassChangesNothing(Step(w, run[0]), run[1..], now);
        var rest := [run[0]] + WithoutReaps(run[1..], now);
        assert rest[1..] == WithoutReaps(run[1..], now);
      }
    }
  }

  lemma ReapOfNothing(w: World, a: Action, now: Time)
    requires Inv(w) && NothingTimedOut(w, now) && IsReap(a, now)
    ensures Step(w, a) == w
  {
    if a.version < |w.store.log| && Holds(w.store, w.store.log[a.version].key, a.version) {
      assert !TimedOut(w.store.log[a.version].doc, now);
    }
  }

  lemma HarmlessKeepsNothingTimedOut(w: World, a: Action, now: Time)
    requires Inv(w) && Inv(Step(w, a)) && NothingTimedOut(w, now) && Harmless(w, a, now)
    ensures NothingTimedOut(Step(w, a), now)
  {
    var w' := Step(w, a);
    forall k | k in w'.store.live
      ensures LiveOk(w'.store, k) && !TimedOut(w'.store.log[w'.store.live[k]].doc, now)
    {
      LiveIsOk(w', k);
      StepAt(w, a, k);
      hide Inv, Step, TimedOut;
      if k in w.store.live && w'.store.live[k] == w.store.live[k] {
        assert w'.store.log[w.store.live[k]] == w.store.log[w.store.live[k]];
      }
    }
  }

  // ---- archiving ----

  function LiveDocs(w: World): set<PersistedTask>
    requires forall k :: k in w.store.live ==> w.store.live[k] < |w.store.log|
  {
    set k | k in w.store.live :: w.store.log[w.store.live[k]].doc
  }

  /** Every task in the queues and in the archive, with multiplicity. Live documents carry their own
      key, so no two of them are equal. */
  ghost function Holdings(w: World): multiset<PersistedTask>
    requires Inv(w)
  {
    assert forall k :: k in w.store.live ==> LiveOk(w.store, k);
    multiset(LiveDocs(w)) + w.archive
  }

  lemma RemovalTakesOneDoc(w: World, k: Key)
    requires Inv(w) && k in w.store.live
    ensures LiveOk(w.store, k)
    ensures var w' := w.(store := w.store.(live := w.store.live - {k}));
      && Inv(w')
      && Holdings(w) == Holdings(w') + multiset{w.store.log[w.store.live[k]].doc}
  {
    DeleteKeepsInv(w, k);
    LiveDocsAreDistinct(w, k);
    var w' := w.(store := w.store.(live := w.store.live - {k}));
    var doc := w.store.log[w.store.live[k]].doc;
    assert multiset(LiveDocs(w)) == multiset(LiveDocs(w')) + multiset{doc};
  }

  lemma LiveDocsAreDistinct(w: World, k: Key)
    requires Inv(w) && k in w.store.live
    ensures forall j :: j in w.store.live ==> LiveOk(w.store, j)
    ensures var w' := w.(store := w.store.(live := w.store.live - {k}));
      && LiveDocs(w) == LiveDocs(w') + {w.store.log[w.store.live[k]].doc}
      && w.store.log[w.store.live[k]].doc !in LiveDocs(w')
  {
    var w' := w.(store := w.store.(live := w.store.live - {k}));
    assert LiveOk(w.store, k);
    var doc := w.store.log[w.store.live[k]].doc;
    forall j | j in w.store.live
      ensures LiveOk(w.store, j)
      ensures j != k ==> w.store.log[w.store.live[j]].doc != doc
    {
      assert EntryOk(w.store, w.store.live[j]) && EntryOk(w.store, w.store.live[k]);
    }
    forall d | d in LiveDocs(w)
      ensures d in LiveDocs(w') + {doc}
    {
      var j :| j in w.store.live && w.store.log[w.store.live[j]].doc == d;
      if j != k { assert j in w'.store.live; }
    }
  }

  lemma InsertAdds(w: World, w': World, doc: PersistedTask, inserted: bool)
    requires Inv(w) && Inv(w') && w'.store == w.store
    requires w'.archive == if inserted then w.archive + multiset{doc} else w.archive
    ensures Holdings(w') == Holdings(w) + if inserted then multiset{doc} else multiset{}
  {
    hide Inv;
  }

  /** An archival moves a task without losing or duplicating it exactly when its delete takes effect
      if and only if its insert does. The insert carries no version, so archiving a copy that is no
      longer the live one adds a duplicate to the archive. */
  lemma ArchivalConservesExactlyWhen(w: World, v: Version, completedBefore: Time, deleteFate: Fate, inserted: bool)
    requires Inv(w) && v < |w.store.log| && Archivable(w.store.log[v].doc, completedBefore)
    ensures var w' := Step(w, Archive(v, completedBefore, deleteFate, inserted));
      && Inv(w')
      && (Holdings(w') == Holdings(w) <==>
            ((Holds(w.store, w.store.log[v].key, v) && !deleteFate.Dropped?) <==> inserted))
  {
    var a := Archive(v, completedBefore, deleteFate, inserted);
    StepKeepsInv(w, a);
    var w' := Step(w, a);
    var doc := w.store.log[v].doc;
    var rest := w.(store := w'.store);
    var removes := Holds(w.store, w.store.log[v].key, v) && !deleteFate.Dropped?;
    var archived := if inserted then w.archive + multiset{doc} else w.archive;
    assert w'.archive == archived;
    if removes {
      RemovalTakesOneDoc(w, w.store.log[v].key);
      assert rest.store == w.store.(live := w.store.live - {w.store.log[v].key});
    } else {
      assert rest == w;
    }
    InsertAdds(rest, w', doc, inserted);
    hide Inv, Holdings, Step, Archivable;
    assert Holdings(w) == Holdings(rest) + if removes then multiset{doc} else multiset{};
    assert Holdings(w')[doc] + (if removes then 1 else 0) == Holdings(w)[doc] + if inserted then 1 else 0;
  }

  /** A batch of archivals of live copies that are all handled. */
  ghost predicate IsFreshArchivePass(w: World, pass: seq<Action>)
  {
    && (forall i :: 0 <= i < |pass| ==>
          && pass[i].Archive? && !pass[i].deleteFate.Dropped? && pass[i].inserted
          && pass[i].version < |w.store.log|
          && Archivable(w.store.log[pass[i].version].doc, pass[i].completedBefore)
          && Holds(w.store, w.store.log[pass[i].version].key, pass[i].version))
    && (forall i, j :: 0 <= i < j < |pass| ==> pass[i].version != pass[j].version)
  }

  function PassKeys(s: TaskStore, pass: seq<Action>): set<Key>
    requires forall i :: 0 <= i < |pass| ==> pass[i].Archive? && pass[i].version < |s.log|
  {
    if pass == [] then {} else {s.log[pass[0].version].key} + PassKeys(s, pass[1..])
  }

  /** Such a batch moves exactly the scanned tasks from the queues to the archive. */
  lemma {:induction false} FreshArchivePassConserves(w: World, pass: seq<Action>)
    requires Inv(w) && IsFreshArchivePass(w, pass)
    ensures var w' := Run(w, pass);
      && Inv(w')
      && Holdings(w') == Holdings(w)
      && w'.store == w.store.(live := w.store.live - PassKeys(w.store, pass))
    decreases pass
  {
    if pass != [] {
      var a := pass[0];
      var w1 := Step(w, a);
      ArchivalConservesExactlyWhen(w, a.version, a.completedBefore, a.deleteFate, a.inserted);
      FreshArchiveRest(w, pass);
      FreshArchivePassConserves(w1, pass[1..]);
      SameLogSameKeys(w.store, w1.store, pass[1..]);
    }
  }

  lemma FreshArchiveRest(w: World, pass: seq<Action>)
    requires Inv(w) && pass != [] && IsFreshArchivePass(w, pass)
    ensures IsFreshArchivePass(Step(w, pass[0]), pass[1..])
    ensures Step(w, pass[0]).store == w.store.(live := w.store.live - {w.store.log[pass[0].version].key})
  {
    var w1, rest := Step(w, pass[0]), pass[1..];
    forall i | 0 <= i < |rest|
      ensures Holds(w1.store, w1.store.log[rest[i].version].key, rest[i].version)
    {
      assert rest[i] == pass[i + 1];
    }
  }

  lemma {:induction false} SameLogSameKeys(s: TaskStore, s': TaskStore, pass: seq<Action>)
    requires s.log == s'.log
    requires forall i :: 0 <= i < |pass| ==> pass[i].Archive? && pass[i].version < |s.log|
    ensures PassKeys(s, pass) == PassKeys(s', pass)
    decreases pass
  {
    if pass != [] { SameLogSameKeys(s, s', pass[1..]); }
  }

  /** An archival pass among the other actions of others: its items are all handled, each for another
      copy that is live at the start. */
  ghost predicate IsArchiveRun(w: World, run: seq<Action>) {
    && (forall i :: 0 <= i < |run| && run[i].Archive? ==> FreshArchival(w, run[i]))
    && (forall i, j :: 0 <= i < j < |run| && run[i].Archive? && run[j].Archive? ==> run[i].version != run[j].version)
  }

  ghost predicate FreshArchival(w: World, a: Action)
    requires a.Archive?
  {
    && !a.deleteFate.Dropped? && a.inserted
    && a.version < |w.store.log|
    && Archivable(w.store.log[a.version].doc, a.completedBefore)
    && Holds(w.store, w.store.log[a.version].key, a.version)
  }

  /** Each archival of the run moves its task, losing and duplicating nothing, when its turn comes. */
  ghost predicate EachArchivalConserves(w: World, run: seq<Action>)
    decreases run
  {
    run != [] ==>
      && Inv(w) && Inv(Step(w, run[0]))
      && (run[0].Archive? ==> Holdings(Step(w, run[0])) == Holdings(w))
      && EachArchivalConserves(Step(w, run[0]), run[1..])
  }

  /** Others cannot spoil such a pass: finished tasks do not change under it. */
  lemma {:induction false} ArchivePassConserves(w: World, run: seq<Action>)
    requires Inv(w) && IsArchiveRun(w, run)
    ensures EachArchivalConserves(w, run)
    decreases run
  {
    hide Inv, Step, Holdings, FreshArchival;
    if run != [] {
      StepKeepsInv(w, run[0]);
      if run[0].Archive? { FreshArchivalConserves(w, run[0]); }
      var w', rest := Step(w, run[0]), run[1..];
      forall i | 0 <= i < |rest| && rest[i].Archive?
        ensures FreshArchival(w', rest[i])
      {
        assert rest[i] == run[i + 1];
        FreshArchivalStays(w, run[0], rest[i]);
      }
      ArchivePassConserves(w', rest);
    }
  }

  lemma FreshArchivalConserves(w: World, a: Action)
    requires Inv(w) && a.Archive? && FreshArchival(w, a)
    ensures Inv(Step(w, a)) && Holdings(Step(w, a)) == Holdings(w)
  {
    ArchivalConservesExactlyWhen(w, a.version, a.completedBefore, a.deleteFate, a.inserted);
  }

  lemma FreshArchivalStays(w: World, a: Action, item: Action)
    requires Inv(w) && item.Archive? && FreshArchival(w, item) && (a.Archive? ==> a.version != item.version)
    ensures FreshArchival(Step(w, a), item)
  {
    FinishedStays(w, a, item.version);
    StepGrows(w, a);
    hide Step, Inv;
    assert Step(w, a).store.log[item.version] == w.store.log[item.version];
  }

  /** A live finished task stays live, unless it is archived. */
  lemma FinishedStays(w: World, a: Action, v: Version)
    requires Inv(w) && v < |w.store.log| && Holds(w.store, w.store.log[v].key, v)
               && w.store.log[v].doc.state in {DONE, DEAD}
    requires a.Archive? ==> a.version != v
    ensures Holds(Step(w, a).store, w.store.log[v].key, v)
  {
    assert EntryOk(w.store, v);
    if a.Attempt? {
      if a.version == v { ApplySucceedsExactlyWhen(a.op, TaskAt(w.store, v)); }
      hide Inv, Apply, ToPersistedTask;
    } else {
      hide Inv, NewDocument, Archivable;
    }
  }

  ghost predicate Replaced(s: TaskStore, v: Version) {
    exists u :: 0 <= u < |s.log| && s.log[u].replaced == Some(v)
  }

  /** The state written at version v is still there: superseded by a later write, live, or archived. */
  ghost predicate Accounted(w: World, v: Version)
    requires v < |w.store.log|
  {
    Replaced(w.store, v) || Holds(w.store, w.store.log[v].key, v) || w.store.log[v].doc in w.archive
  }

  lemma StepKeepsAccount(w: World, a: Action, v: Version)
    requires Inv(w) && (a.Archive? ==> a.inserted)
    requires v < |w.store.log| && Accounted(w, v)
    ensures v < |Step(w, a).store.log| && Accounted(Step(w, a), v)
  {
    hide Inv, Apply, Eligible, NewDocument, ToDomainTask, ToPersistedTask, Archivable;
    var w' := Step(w, a);
    if Replaced(w.store, v) {
      var u :| 0 <= u < |w.store.log| && w.store.log[u].replaced == Some(v);
      assert w'.store.log[u].replaced == Some(v);
    } else if Holds(w.store, w.store.log[v].key, v) && |w'.store.log| > |w.store.log| {
      assert w'.store.log[|w.store.log|].key == w.store.log[v].key ==>
        w'.store.log[|w.store.log|].replaced == Some(v);
    }
  }

  lemma StepAddsLive(w: World, a: Action, v: Version)
    requires |w.store.log| <= v < |Step(w, a).store.log|
    ensures Accounted(Step(w, a), v)
  {
    hide Apply, Eligible, NewDocument, ToDomainTask, ToPersistedTask, Archivable;
  }

  /** No task is ever lost: in a run where the archive's inserts take effect, whatever else fails,
      the last state of every task is live or archived. */
  lemma {:induction false} NothingIsLost(w: World, actions: seq<Action>)
    requires Inv(w)
    requires forall i :: 0 <= i < |actions| && actions[i].Archive? ==> actions[i].inserted
    requires forall v :: 0 <= v < |w.store.log| ==> Accounted(w, v)
    ensures forall v :: 0 <= v < |Run(w, actions).store.log| ==> Accounted(Run(w, actions), v)
    decreases actions
  {
    hide Inv, Step, Accounted;
    if actions != [] {
      var w' := Step(w, actions[0]);
      StepKeepsInv(w, actions[0]);
      forall v | 0 <= v < |w'.store.log|
        ensures Accounted(w', v)
      {
        if v < |w.store.log| { StepKeepsAccount(w, actions[0], v); } else { StepAddsLive(w, actions[0], v); }
      }
      NothingIsLost(w', actions[1..]);
    }
  }

  // ---- recurring jobs ----

  /** What OutstandingTasksCount counts. */
  function Outstanding(w: World, queue: string, recurringTaskId: string): set<Key>
    requires forall k :: k in w.store.live ==> w.store.live[k] < |w.store.log|
  {
    set k | k in w.store.live && k.queue == queue && OutstandingFor(w.store.log[w.store.live[k]].doc, recurringTaskId)
  }

  predicate CreatesFor(a: Action, queue: string, recurringTaskId: string) {
    a.Create? && a.newTask.queue == queue && a.newTask.recurringTaskId == Some(recurringTaskId)
  }

  /** One firing of a job: count, and if nothing is outstanding enqueue, while others act in between.
      `countFails` stands for an error of the count request. */
  datatype Firing = Firing(id: string, now: Time, countFails: bool, between: seq<Action>, fate: Fate)

  datatype Event = Other(action: Action) | Fire(firing: Firing)

  /** The job the scheduler registers for a definition (SkipIfOutstandingTasksExist set or not). */
  function FireJob(w: World, n: NewTask, recurringTaskId: string, skipIfOutstanding: bool, f: Firing): World
    requires forall k :: k in w.store.live ==> w.store.live[k] < |w.store.log|
  {
    var create := Create(n.(runAt := f.now, recurringTaskId := Some(recurringTaskId)), f.id, f.now, f.fate);
    if skipIfOutstanding then
      if f.countFails || |Outstanding(w, n.queue, recurringTaskId)| > 0 then Run(w, f.between)
      else Run(w, f.between + [create])
    else Run(w, f.between + [create])
  }

  /** Nothing but a creation for the recurring task adds to its outstanding tasks. */
  lemma {:induction false} OutstandingOnlyShrinks(w: World, actions: seq<Action>, queue: string, rid: string)
    requires Inv(w)
    requires forall i :: 0 <= i < |actions| ==> !CreatesFor(actions[i], queue, rid)
    ensures Inv(w) && Inv(Run(w, actions))
    ensures (forall k :: k in w.store.live ==> LiveOk(w.store, k))
    ensures (forall k :: k in Run(w, actions).store.live ==> LiveOk(Run(w, actions).store, k))
    ensures Outstanding(Run(w, actions), queue, rid) <= Outstanding(w, queue, rid)
    decreases actions
  {
    AllLiveOk(w);
    hide Inv, Step, LiveOk, Outstanding, CreatesFor;
    if actions != [] {
      var w' := Step(w, actions[0]);
      StepKeepsInv(w, actions[0]);
      AllLiveOk(w');
      LiveInLog(w);
      LiveInLog(w');
      forall k | k in Outstanding(w', queue, rid)
        ensures k in Outstanding(w, queue, rid)
      {
        OutstandingBefore(w, actions[0], queue, rid, k);
      }
      OutstandingOnlyShrinks(w', actions[1..], queue, rid);
    }
    LiveInLog(w);
    LiveInLog(Run(w, actions));
  }

  lemma AllLiveOk(w: World)
    requires Inv(w)
    ensures forall k :: k in w.store.live ==> LiveOk(w.store, k)
  {
  }

  lemma LiveInLog(w: World)
    requires Inv(w)
    ensures forall k :: k in w.store.live ==> w.store.live[k] < |w.store.log|
  {
    hide EntryOk;
    forall k | k in w.store.live
      ensures w.store.live[k] < |w.store.log|
    {
      assert LiveOk(w.store, k);
    }
  }

  /** What is outstanding after an action was so before, unless the action created it. */
  lemma OutstandingBefore(w: World, a: Action, queue: string, rid: string, k: Key)
    requires Inv(w) && !CreatesFor(a, queue, rid)
    requires (forall k :: k in w.store.live ==> w.store.live[k] < |w.store.log|)
    requires (forall k :: k in Step(w, a).store.live ==> Step(w, a).store.live[k] < |Step(w, a).store.log|)
    requires k in Outstanding(Step(w, a), queue, rid)
    ensures k in Outstanding(w, queue, rid)
  {
    StepAt(w, a, k);
    var w' := Step(w, a);
    if k in w.store.live && w'.store.live[k] == w.store.live[k] {
      hide Inv, Step;
      assert w'.store.log[w.store.live[k]] == w.store.log[w.store.live[k]];
    } else if a.Attempt? {
      AttemptOutstanding(w, a, rid, k);
    } else {
      hide Inv, Apply, Archivable;
    }
  }

  lemma AttemptOutstanding(w: World, a: Action, rid: string, k: Key)
    requires Inv(w) && a.Attempt? && |Step(w, a).store.log| == |w.store.log| + 1
    requires k in Step(w, a).store.live && Step(w, a).store.live[k] == |w.store.log|
    requires OutstandingFor(Step(w, a).store.log[|w.store.log|].doc, rid)
    ensures k in w.store.live && w.store.live[k] < |w.store.log|
    ensures OutstandingFor(w.store.log[w.store.live[k]].doc, rid)
  {
    var v := a.version;
    assert v < |w.store.log| && EntryOk(w.store, v) && Holds(w.store, w.store.log[v].key, v);
    assert k in w.store.live ==> LiveOk(w.store, k);
    EligibleKeepsWellFormed(a.op, w.store.log[v].doc);
    ApplySucceedsExactlyWhen(a.op, TaskAt(w.store, v));
  }

  function RunEvents(w: World, n: NewTask, rid: string, events: seq<Event>): World
    requires Inv(w)
    requires forall i :: 0 <= i < |events| ==> EventOk(events[i], n.queue, rid)
    decreases events
  {
    if events == [] then w
    else
      EventKeepsInv(w, n, rid, events[0]);
      RunEvents(RunEvent(w, n, rid, events[0]), n, rid, events[1..])
  }

  function RunEvent(w: World, n: NewTask, rid: string, e: Event): World
    requires Inv(w)
  {
    assert forall k :: k in w.store.live ==> LiveOk(w.store, k);
    match e
    case Other(a) => Step(w, a)
    case Fire(f) => FireJob(w, n, rid, true, f)
  }

  /** Only the job itself creates tasks for its recurring id. */
  ghost predicate EventOk(e: Event, queue: string, rid: string) {
    match e
    case Other(a) => !CreatesFor(a, queue, rid)
    case Fire(f) => forall i :: 0 <= i < |f.between| ==> !CreatesFor(f.between[i], queue, rid)
  }

  lemma EventKeepsInv(w: World, n: NewTask, rid: string, e: Event)
    requires Inv(w) && EventOk(e, n.queue, rid)
    ensures Inv(RunEvent(w, n, rid, e))
  {
    match e
    case Other(a) => StepKeepsInv(w, a);
    case Fire(f) =>
      var create := Create(n.(runAt := f.now, recurringTaskId := Some(rid)), f.id, f.now, f.fate);
      RunKeepsInv(w, f.between);
      RunKeepsInv(w, f.between + [create]);
  }

  /** With the skip flag set, at most one unfinished task of a recurring task is ever in its queue,
      whatever workers, reaper, archiver and other users do between and during the firings. */
  lemma {:induction false} AtMostOneOutstanding(w: World, n: NewTask, rid: string, events: seq<Event>)
    requires Inv(w)
    requires forall i :: 0 <= i < |events| ==> EventOk(events[i], n.queue, rid)
    requires (forall k :: k in w.store.live ==> LiveOk(w.store, k)) && |Outstanding(w, n.queue, rid)| <= 1
    ensures var w' := RunEvents(w, n, rid, events);
      && Inv(w')
      && (forall k :: k in w'.store.live ==> LiveOk(w'.store, k))
      && |Outstanding(w', n.queue, rid)| <= 1
    decreases events
  {
    if events != [] {
      var w' := RunEvent(w, n, rid, events[0]);
      EventKeepsInv(w, n, rid, events[0]);
      EventKeepsOneOutstanding(w, n, rid, events[0]);
      AtMostOneOutstanding(w', n, rid, events[1..]);
    }
  }

  lemma SmallerSet<T>(a: set<T>, b: set<T>)
    requires a <= b
    ensures |a| <= |b|
  {
    if a != {} {
      var x :| x in a;
      SmallerSet(a - {x}, b - {x});
    }
  }

  lemma EventKeepsOneOutstanding(w: World, n: NewTask, rid: string, e: Event)
    requires Inv(w) && EventOk(e, n.queue, rid)
    requires (forall k :: k in w.store.live ==> LiveOk(w.store, k)) && |Outstanding(w, n.queue, rid)| <= 1
    ensures Inv(RunEvent(w, n, rid, e))
    ensures forall k :: k in RunEvent(w, n, rid, e).store.live ==> LiveOk(RunEvent(w, n, rid, e).store, k)
    ensures |Outstanding(RunEvent(w, n, rid, e), n.queue, rid)| <= 1
  {
    EventKeepsInv(w, n, rid, e);
    var w' := RunEvent(w, n, rid, e);
    match e
    case Other(a) =>
      OutstandingOnlyShrinks(w, [a], n.queue, rid);
      RunOne(w, a);
      SmallerSet(Outstanding(w', n.queue, rid), Outstanding(w, n.queue, rid));
    case Fire(f) =>
      OutstandingOnlyShrinks(w, f.between, n.queue, rid);
      var mid := Run(w, f.between);
      SmallerSet(Outstanding(mid, n.queue, rid), Outstanding(w, n.queue, rid));
      if !f.countFails && |Outstanding(w, n.queue, rid)| == 0 {
        var create := Create(n.(runAt := f.now, recurringTaskId := Some(rid)), f.id, f.now, f.fate);
        RunConcat(w, f.between, [create]);
        RunOne(mid, create);
        SmallerSet(Outstanding(w', n.queue, rid), {Key(n.queue, f.id)});
      }
  }

  /** Every task of the recurring id in the queue is finished. */
  ghost predicate AllFinished(s: TaskStore, queue: string, rid: string)
    requires forall k :: k in s.live ==> s.live[k] < |s.log|
  {
    forall k :: k in s.live && k.queue == queue && s.log[s.live[k]].doc.recurringTaskId == Some(rid) ==>
      s.log[s.live[k]].doc.state in {DONE, DEAD}
  }

  lemma NoneOutstanding(w: World, queue: string, rid: string)
    requires forall k :: k in w.store.live ==> w.store.live[k] < |w.store.log|
    ensures |Outstanding(w, queue, rid)| == 0 <==> AllFinished(w.store, queue, rid)
  {
    if |Outstanding(w, queue, rid)| == 0 {
      forall k | k in w.store.live && k.queue == queue && w.store.log[w.store.live[k]].doc.recurringTaskId == Some(rid)
        ensures w.store.log[w.store.live[k]].doc.state in {DONE, DEAD}
      {
        assert k !in Outstanding(w, queue, rid);
      }
    } else {
      var k :| k in Outstanding(w, queue, rid);
    }
  }

  /** A firing, whatever others do between its count and its creation, enqueues a task exactly when the flag is
      not set, or the count succeeds and finds every task of the recurring id in the queue finished: a task as
      defined, due at once, under the recurring id. Otherwise only the actions of others remain. */
  lemma {:induction false} JobEnqueuesExactlyWhen(w: World, n: NewTask, rid: string, skipIfOutstanding: bool, f: Firing)
    requires Inv(w) && (forall k :: k in w.store.live ==> LiveOk(w.store, k))
    requires f.fate.Served? && Key(n.queue, f.id) !in Run(w, f.between).store.live
    ensures var w' := FireJob(w, n, rid, skipIfOutstanding, f);
      && (forall k :: k in w.store.live ==> w.store.live[k] < |w.store.log|)
      && (Key(n.queue, f.id) in w'.store.live <==>
            !skipIfOutstanding || (!f.countFails && AllFinished(w.store, n.queue, rid)))
      && (if Key(n.queue, f.id) in w'.store.live then
            && w'.store.live[Key(n.queue, f.id)] < |w'.store.log|
            && StartsAs(TaskAt(w'.store, w'.store.live[Key(n.queue, f.id)]),
                        n.(runAt := f.now, recurringTaskId := Some(rid)), f.id, f.now)
          else w' == Run(w, f.between))
  {
    hide Inv, Apply, Eligible;
    var create := Create(n.(runAt := f.now, recurringTaskId := Some(rid)), f.id, f.now, f.fate);
    NoneOutstanding(w, n.queue, rid);
    NewDocumentStarts(n.(runAt := f.now, recurringTaskId := Some(rid)), f.id, f.now);
    RunConcat(w, f.between, [create]);
    RunOne(Run(w, f.between), create);
    hide Run;
  }

  // ---- a witness ----

  /** Create, claim and complete a task, and archive the same copy twice, as two archivers that scanned it
      at the same time do: the archive holds it twice. */
  lemma ArchivedTwice(n: NewTask, id: string, worker: string, at: Time) returns (actions: seq<Action>)
    requires HasRoom(n.retryTimes) && n.runAt <= at
    ensures var w := Run(Initial(), actions);
      w.store.live == map[] && exists doc :: doc in w.archive && w.archive[doc] == 2 && doc.state == DONE
  {
    var create := Create(n, id, at, Served(false));
    var claim := Attempt(0, ClaimBy(worker, at, at), Served(false));
    var done := Attempt(1, DoneBy(worker, at, None), Served(false));
    var archive := Archive(2, at, Served(false), true);
    actions := [create] + ([claim] + ([done] + ([archive] + ([archive] + []))));
    var w1 := Step(Initial(), create);
    NewDocumentIsWellFormed(n, id, at);
    var t1 := ToDomainTask(NewDocument(n, id, at));
    assert w1.store.log[0].doc == NewDocument(n, id, at);
    var w2 := Step(w1, claim);
    var t2 := Apply(claim.op, t1).value;
    PersistThenReload(t2);
    assert w2.store.log[1].doc == ToPersistedTask(t2);
    var w3 := Step(w2, done);
    var t3 := Apply(done.op, t2).value;
    assert w3.store.log[2].doc == ToPersistedTask(t3);
    var w4 := Step(w3, archive);
    var w5 := Step(w4, archive);
    var doc := ToPersistedTask(t3);
    assert w5.store.live == map[] && w5.archive == multiset{doc} + multiset{doc};
    assert w5.archive[doc] == 2;
    hide Step, Apply, ToPersistedTask, ToDomainTask, NewDocument;
    RunAhead(Initial(), create, [claim] + ([done] + ([archive] + ([archive] + []))));
    RunAhead(w1, claim, [done] + ([archive] + ([archive] + [])));
    RunAhead(w2, done, [archive] + ([archive] + []));
    RunAhead(w3, archive, [archive] + []);
    RunAhead(w4, archive, []);
    assert Run(w5, []) == w5;
  }

  lemma {:induction false} RunAhead(w: World, a: Action, rest: seq<Action>)
    ensures Run(w, [a] + rest) == Run(Step(w, a), rest)
  {
    assert ([a] + rest)[1..] == rest;
  }
}
