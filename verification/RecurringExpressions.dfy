/**
Expressions that do not parse. The API validates the expression of each definition that it stores, with the
parser that the scheduler uses, so only a document written past the API has another. Without such documents
everything undeleted can run and the enforcer comes to rest; with one, it never does.
*/
module RecurringExpressions {
  import opened VersionedStore
  import opened RecurringStore
  import opened RecurringSync
  import opened RecurringListings
  import opened RecurringTheorems
  import opened RecurringRuns
  import opened RecurringMarking
  import opened RecurringQuiescence
  import opened RecurringEnforcer
  import opened RecurringFailures

  // ---- what the API stores ----

  /** The write carries no definition, or one that parses. */
  predicate Validated(w: ApiWrite, parses: string -> bool) { w.ApiDelete? || parses(w.body.expression) }

  ghost predicate AllValidated(writes: seq<ApiWrite>, parses: string -> bool) {
    forall i :: 0 <= i < |writes| ==> Validated(writes[i], parses)
  }

  ghost predicate MarkValidated(plan: MarkPlan, parses: string -> bool) {
    forall n :: AllValidated(plan.before(n), parses)
  }

  ghost predicate CallValidated(call: Call, parses: string -> bool) {
    && AllValidated(call.read.before, parses) && MarkValidated(call.mark, parses)
    && AllValidated(call.recheck.before, parses)
    && AllValidated(call.reloadRead.before, parses) && MarkValidated(call.reloadMark, parses)
  }

  /** Every API write in the step, whenever it happens, is validated. */
  ghost predicate EventValidated(e: Event, parses: string -> bool) {
    match e
    case ApiEvent(w) => Validated(w, parses)
    case CallEvent(call) => CallValidated(call, parses)
    case Elsewhere(_, plan) => MarkValidated(plan, parses)
  }

  ghost predicate ValidatedRun(events: seq<Event>, parses: string -> bool) {
    forall i :: 0 <= i < |events| ==> EventValidated(events[i], parses)
  }

  /** Every definition ever stored parses, unless the document was deleted. */
  ghost predicate DefinitionsParse(s: RecurringStore, parses: string -> bool) {
    forall v :: 0 <= v < |s.log| && !s.log[v].doc.isDeleted ==> parses(s.log[v].doc.body.expression)
  }

  lemma AllParseRuns(s: RecurringStore, parses: string -> bool)
    requires StoreOk(s) && DefinitionsParse(s, parses)
    ensures Runnable(s, parses) == UndeletedIds(s)
  {
    hide Valid;
    forall id | id in UndeletedIds(s)
      ensures id in Runnable(s, parses)
    {
    }
  }

  lemma ApiStoresParsing(s: RecurringStore, w: ApiWrite, parses: string -> bool)
    requires DefinitionsParse(s, parses) && Validated(w, parses)
    ensures DefinitionsParse(AfterApi(s, w), parses)
  {
  }

  lemma {:induction false} ApiAllStoreParsing(s: RecurringStore, writes: seq<ApiWrite>, parses: string -> bool)
    requires DefinitionsParse(s, parses) && AllValidated(writes, parses)
    ensures DefinitionsParse(AfterApiAll(s, writes), parses)
    decreases writes
  {
    hide DefinitionsParse, AfterApi, Validated;
    if writes != [] {
      ApiStoresParsing(s, writes[0], parses);
      ApiAllStoreParsing(AfterApi(s, writes[0]), writes[1..], parses);
    }
  }

  /** What is marked is deleted or parses. */
  ghost predicate AllPlausible(ms: seq<RecurringTask>, parses: string -> bool) {
    forall i :: 0 <= i < |ms| ==> ms[i].isDeleted || parses(ms[i].body.expression)
  }

  lemma {:induction false} MarkStoresParsing(s: RecurringStore, ms: seq<RecurringTask>, plan: MarkPlan,
                                             parses: string -> bool)
    requires DefinitionsParse(s, parses) && AllPlausible(ms, parses) && MarkValidated(plan, parses)
    ensures DefinitionsParse(MarkItems(s, ms, plan).0, parses)
  {
    hide AfterApiAll, AllValidated;
    if ms != [] {
      var n := |ms| - 1;
      MarkStoresParsing(s, ms[..n], plan, parses);
      var s1 := MarkItems(s, ms[..n], plan).0;
      assert AllValidated(plan.before(n), parses);
      ApiAllStoreParsing(s1, plan.before(n), parses);
    }
  }

  lemma MarkCallStoresParsing(v: View, loaded: seq<RecurringTask>, plan: MarkPlan, parses: string -> bool)
    requires StoreOk(v.store) && DefinitionsParse(v.store, parses)
    requires forall t :: t in loaded ==> t.isDeleted || parses(t.body.expression)
    requires MarkValidated(plan, parses)
    ensures DefinitionsParse(MarkAsLoaded(v, loaded, plan).view.store, parses)
  {
    hide Valid, DefinitionsParse, AllValidated, MarkItems, AfterApiAll, Remembered, Select;
    var ms := MarkedAll(loaded, plan.at);
    forall i | 0 <= i < |ms|
      ensures ms[i].isDeleted || parses(ms[i].body.expression)
    {
      assert loaded[i] in loaded && ms[i] == Marked(loaded[i], plan.at);
    }
    MarkStoresParsing(v.store, ms, plan, parses);
    assert AllValidated(plan.before(0), parses);
    ApiAllStoreParsing(v.store, plan.before(0), parses);
  }

  lemma ReloadStoresParsing(v: View, parses: string -> bool, read: ReadPlan, mark: MarkPlan)
    requires StoreOk(v.store) && DefinitionsParse(v.store, parses)
    requires AllValidated(read.before, parses) && MarkValidated(mark, parses)
    ensures DefinitionsParse(CompleteReload(v, parses, read, mark).view.store, parses)
  {
    hide Valid, DefinitionsParse, AllValidated, MarkValidated, MarkAsLoaded, AfterApiAll, All, ScheduleAll, Scheduled;
    ApiAllStoreParsing(v.store, read.before, parses);
    var v1 := ReadStore(StopAll(v), read);
    ScheduledAre(All(v1.store), parses);
    MarkCallStoresParsing(Rescheduled(v1, parses), Scheduled(All(v1.store), parses), mark, parses);
  }

  lemma SyncStoresParsing(v: View, parses: string -> bool, read: ReadPlan, mark: MarkPlan)
    requires StoreOk(v.store) && DefinitionsParse(v.store, parses)
    requires AllValidated(read.before, parses) && MarkValidated(mark, parses)
    ensures DefinitionsParse(SyncNotLoaded(v, parses, read, mark).view.store, parses)
  {
    hide Valid, DefinitionsParse, AllValidated, MarkValidated, MarkAsLoaded, AfterApiAll, SeenNotLoaded, ToAck;
    ApiAllStoreParsing(v.store, read.before, parses);
    var v1 := ReadStore(v, read);
    var seen := SeenNotLoaded(v1.store, read);
    SeenArePast(v1.store, read);
    AckedAre(seen, parses);
    RefreshedStore(v1, seen, parses);
    MarkCallStoresParsing(Refreshed(v1, seen, parses), ToAck(seen, parses), mark, parses);
  }

  lemma EnforceStoresParsing(v: View, parses: string -> bool, read: ReadPlan, mark: MarkPlan, recheck: ReadPlan,
                             reloadRead: ReadPlan, reloadMark: MarkPlan)
    requires StoreOk(v.store) && DefinitionsParse(v.store, parses)
    requires AllValidated(read.before, parses) && MarkValidated(mark, parses) && AllValidated(recheck.before, parses)
    requires AllValidated(reloadRead.before, parses) && MarkValidated(reloadMark, parses)
    ensures DefinitionsParse(EnforceSync(v, parses, read, mark, recheck, reloadRead, reloadMark).view.store, parses)
  {
    hide Valid, DefinitionsParse, AllValidated, MarkValidated, MarkAsLoaded, AfterApiAll, CheckSync, ToResync;
    hide Scheduled, CompleteReload, Corrected, NeedsResync;
    ApiAllStoreParsing(v.store, read.before, parses);
    var v1 := ReadStore(v, read);
    var c := CheckSync(v1.mem, All(v1.store));
    ScheduledAre(ToResync(c), parses);
    CorrectedStore(v1, c, parses);
    MarkCallStoresParsing(Corrected(v1, c, parses), Scheduled(ToResync(c), parses), mark, parses);
    MarkAsLoadedKeepsStoreOk(Corrected(v1, c, parses), Scheduled(ToResync(c), parses), mark);
    var repaired := Repair(v1, c, parses, mark).view;
    ApiAllStoreParsing(repaired.store, recheck.before, parses);
    ReloadStoresParsing(ReadStore(repaired, recheck), parses, reloadRead, reloadMark);
  }

  lemma NextStoresParsing(m: Managed, e: Event, parses: string -> bool)
    requires StoreOk(m.view.store) && DefinitionsParse(m.view.store, parses)
    requires Plausible(e, parses) && EventValidated(e, parses)
    ensures DefinitionsParse(Next(m, e, parses).view.store, parses)
  {
    hide Valid, DefinitionsParse, AllValidated, MarkValidated, CompleteReload, SyncNotLoaded, EnforceSync, MarkItems;
    hide Validated, AfterApi;
    match e
    case ApiEvent(w) => ApiStoresParsing(m.view.store, w, parses);
    case CallEvent(call) =>
      ReloadStoresParsing(m.view, parses, call.read, call.mark);
      SyncStoresParsing(m.view, parses, call.read, call.mark);
      EnforceStoresParsing(m.view, parses, call.read, call.mark, call.recheck, call.reloadRead, call.reloadMark);
    case Elsewhere(marks, plan) => MarkStoresParsing(m.view.store, marks, plan, parses);
  }

  /** In every run whose API writes are validated, whatever else happens, everything undeleted can run. */
  lemma {:induction false} ValidatedRunsStayRunnable(m: Managed, events: seq<Event>, parses: string -> bool)
    requires Sound(m.view, parses) && DefinitionsParse(m.view.store, parses)
    requires PlausibleRun(events, parses) && ValidatedRun(events, parses)
    ensures var s := After(m, events, parses).view.store;
      StoreOk(s) && DefinitionsParse(s, parses) && Runnable(s, parses) == UndeletedIds(s)
    decreases events
  {
    hide Valid, Sound, Next, DefinitionsParse, EventValidated, Plausible, Runnable, UndeletedIds;
    SoundIsOk(m.view, parses);
    if events == [] {
      AllParseRuns(m.view.store, parses);
    } else {
      NextKeeps(m, events[0], parses);
      NextStoresParsing(m, events[0], parses);
      ValidatedRunsStayRunnable(Next(m, events[0], parses), events[1..], parses);
    }
  }

  // ---- the enforcer at rest ----

  lemma InStepFindsNothing(v: View, parses: string -> bool)
    requires StoreOk(v.store) && MemoryInStep(v, parses) && Runnable(v.store, parses) == UndeletedIds(v.store)
    ensures !NeedsResync(CheckSync(v.mem, All(v.store)))
  {
    hide Valid, CheckSync, NeedsResync, Runnable;
    NeedsResyncExactlyWhen(v.store, v.mem);
    forall id | id in UndeletedIds(v.store)
      ensures id in v.mem && v.mem[id].version == v.store.live[id]
    {
      assert id in v.mem.Keys;
      assert AgreesAt(v.store, v.mem, id);
    }
  }

  /** So, from the start over an empty store, one quiet run of the enforcer is enough for good: the next
      one changes nothing, whatever jobs are running too many. */
  lemma {:induction false} EnforcerComesToRest(events: seq<Event>, parses: string -> bool, read: ReadPlan,
                                               mark: MarkPlan, recheck: ReadPlan, reloadRead: ReadPlan,
                                               reloadMark: MarkPlan, again: Call)
    requires PlausibleRun(events, parses) && ValidatedRun(events, parses)
    requires QuietRead(read) && QuietMark(mark) && QuietRead(recheck) && QuietRead(reloadRead) && QuietMark(reloadMark)
    requires QuietRead(again.read)
    ensures Sound(NewManager().view, parses) && StoreOk(After(NewManager(), events, parses).view.store)
    ensures var v := After(NewManager(), events, parses).view;
      var v' := EnforceSync(v, parses, read, mark, recheck, reloadRead, reloadMark).view;
      && StoreOk(v'.store) && v'.mem.Keys == UndeletedIds(v.store)
      && EnforceSync(v', parses, again.read, again.mark, again.recheck, again.reloadRead, again.reloadMark) ==
         Called(v', false)
  {
    NewIsSound(parses);
    assert DefinitionsParse(NewManager().view.store, parses);
    ValidatedRunsStayRunnable(NewManager(), events, parses);
    var v := After(NewManager(), events, parses).view;
    hide Valid, EnforceSync, CheckSync, NeedsResync, MemoryInStep, Runnable, UndeletedIds, After, Sound, NewManager;
    hide InSync;
    EnforceConverges(v, parses, read, mark, recheck, reloadRead, reloadMark);
    var v' := EnforceSync(v, parses, read, mark, recheck, reloadRead, reloadMark).view;
    SameDocsRunTheSame(v.store, v'.store, parses);
    InStepFindsNothing(v', parses);
    QuietEnforceIdle(v', parses, again.read, again.mark, again.recheck, again.reloadRead, again.reloadMark);
  }

  // ---- the enforcer that never rests ----

  /** A call of the enforcer, by the leader, that nothing disturbs. */
  ghost predicate QuietEnforcement(e: Event) {
    && e.CallEvent? && e.call.kind == Enforce && e.call.isLeader
    && QuietRead(e.call.read) && QuietMark(e.call.mark) && QuietRead(e.call.recheck)
    && QuietRead(e.call.reloadRead) && QuietMark(e.call.reloadMark)
  }

  /** Some but not all undeleted definitions parse. */
  ghost predicate PartlyRunnable(s: RecurringStore, parses: string -> bool)
    requires StoreOk(s)
  {
    Runnable(s, parses) != {} && Runnable(s, parses) != UndeletedIds(s)
  }

  lemma EnforcedOnce(m: Managed, e: Event, parses: string -> bool)
    requires m.wasLeader && Sound(m.view, parses) && InSync(m.view, parses) && QuietEnforcement(e)
    requires StoreOk(m.view.store) && PartlyRunnable(m.view.store, parses)
    ensures var m' := Next(m, e, parses);
      && m'.wasLeader && Sound(m'.view, parses) && InSync(m'.view, parses)
      && StoreOk(m'.view.store) && PartlyRunnable(m'.view.store, parses)
      && |m'.view.store.log| > |m.view.store.log|
  {
    hide Valid, Sound, InSync, EnforceSync, Runnable, UndeletedIds, MemoryInStep, SyncNotLoaded, CompleteReload;
    hide QuietRead, QuietMark;
    var c := e.call;
    InSyncIsAccounted(m.view, parses);
    EnforceConverges(m.view, parses, c.read, c.mark, c.recheck, c.reloadRead, c.reloadMark);
    EnforcerIsIdleExactlyWhen(m.view, parses, c.read, c.mark, c.recheck, c.reloadRead, c.reloadMark);
    var v' := EnforceSync(m.view, parses, c.read, c.mark, c.recheck, c.reloadRead, c.reloadMark).view;
    SameDocsRunTheSame(m.view.store, v'.store, parses);
    assert Plausible(e, parses);
    NextKeeps(m, e, parses);
    assert Next(m, e, parses) == Managed(v', true);
    SoundIsOk(v', parses);
  }

  lemma InSyncIsAccounted(v: View, parses: string -> bool)
    requires InSync(v, parses)
    ensures v.jobs.Keys <= v.mem.Keys + UndeletedIds(v.store)
  {
  }

  /** Once in step, with some but not all definitions parsing, each further run of the enforcer writes. */
  lemma {:induction false} RewritesEachTime(m: Managed, events: seq<Event>, parses: string -> bool)
    requires m.wasLeader && Sound(m.view, parses) && InSync(m.view, parses)
    requires StoreOk(m.view.store) && PartlyRunnable(m.view.store, parses)
    requires forall i :: 0 <= i < |events| ==> QuietEnforcement(events[i])
    ensures PlausibleRun(events, parses)
    ensures var v := After(m, events, parses).view;
      InSync(v, parses) && |v.store.log| >= |m.view.store.log| + |events|
    decreases events
  {
    hide Valid, Sound, InSync, Next, PartlyRunnable;
    assert PlausibleRun(events, parses) by {
      forall i | 0 <= i < |events|
        ensures Plausible(events[i], parses)
      {
        assert QuietEnforcement(events[i]);
      }
    }
    if events != [] {
      EnforcedOnce(m, events[0], parses);
      RewritesEachTime(Next(m, events[0], parses), events[1..], parses);
    }
  }

  /** Two definitions, the second with an expression that does not parse; then become leader. */
  function BadStart(good: Body, bad: Body): seq<Event> {
    [ApiEvent(ApiCreate(0, good))] + ([ApiEvent(ApiCreate(1, bad))] + [CallEvent(Plain(Sync, true, FRESH_READ, false))])
  }

  /** The manager in between. */
  function BothCreated(good: Body, bad: Body): Managed {
    Managed(View(Put(Put(Empty(), 0, Fresh(good), Api), 1, Fresh(bad), Api), map[], map[]), false)
  }

  /** From there on every run of the enforcer writes, although the definitions stay as they are. */
  lemma {:induction false} OneBadDefinition(good: Body, bad: Body, events: seq<Event>, parses: string -> bool)
    requires parses(good.expression) && !parses(bad.expression)
    requires forall i :: 0 <= i < |events| ==> QuietEnforcement(events[i])
    ensures Started(NewManager(), parses)
    ensures PlausibleRun(BadStart(good, bad), parses) && PlausibleRun(BadStart(good, bad) + events, parses)
    ensures var v := After(NewManager(), BadStart(good, bad), parses).view;
      var v' := After(NewManager(), BadStart(good, bad) + events, parses).view;
      && InSync(v, parses) && InSync(v', parses)
      && |v'.store.log| >= |v.store.log| + |events|
  {
    BadStartReaches(good, bad, parses);
    NewIsSound(parses);
    var m := After(NewManager(), BadStart(good, bad), parses);
    hide Valid, Sound, InSync, After, PartlyRunnable, BadStart, NewManager, QuietEnforcement;
    RewritesEachTime(m, events, parses);
    AfterConcat(NewManager(), BadStart(good, bad), events, parses);
  }

  lemma BadStartReaches(good: Body, bad: Body, parses: string -> bool)
    requires parses(good.expression) && !parses(bad.expression)
    ensures Started(NewManager(), parses) && Sound(NewManager().view, parses)
    ensures PlausibleRun(BadStart(good, bad), parses)
    ensures var m := After(NewManager(), BadStart(good, bad), parses);
      && m.wasLeader && Sound(m.view, parses) && InSync(m.view, parses)
      && StoreOk(m.view.store) && PartlyRunnable(m.view.store, parses)
  {
    var create, add := ApiEvent(ApiCreate(0, good)), ApiEvent(ApiCreate(1, bad));
    var lead, m1, m2 := CallEvent(Plain(Sync, true, FRESH_READ, false)), Created(good), BothCreated(good, bad);
    CreatedIsReached(good, parses);
    BothAreReached(good, bad, parses);
    LeadOverBoth(m2, lead, parses);
    NewIsSound(parses);
    hide Valid, Sound, InSync, Next, NewManager, Created, BothCreated, Runnable, UndeletedIds, Started, PartlyRunnable;
    SingleEvents(create, add, lead, parses);
    AfterConcat(NewManager(), [create], [add] + [lead], parses);
    AfterConcat(m1, [add], [lead], parses);
    SingleEvent(NewManager(), create, parses);
    SingleEvent(m1, add, parses);
    SingleEvent(m2, lead, parses);
  }

  lemma SingleEvents(create: Event, add: Event, lead: Event, parses: string -> bool)
    requires !create.Elsewhere? && !add.Elsewhere? && !lead.Elsewhere?
    ensures PlausibleRun([create], parses) && PlausibleRun([add], parses) && PlausibleRun([lead], parses)
  {
  }

  lemma LeadOverBoth(m: Managed, lead: Event, parses: string -> bool)
    requires Sound(m.view, parses) && m.view.mem == map[] && m.view.jobs == map[] && !m.wasLeader
    requires StoreOk(m.view.store) && PartlyRunnable(m.view.store, parses)
    requires lead == CallEvent(Plain(Sync, true, FRESH_READ, false))
    ensures var m' := Next(m, lead, parses);
      && m'.wasLeader && Sound(m'.view, parses) && InSync(m'.view, parses)
      && StoreOk(m'.view.store) && PartlyRunnable(m'.view.store, parses)
  {
    hide Valid, Sound, InSync, CompleteReload, Runnable, UndeletedIds, MemoryInStep, JobsMatch, CleanAgrees;
    hide LostNothing;
    QuietReloadSyncsExactlyWhen(m.view, parses, FRESH_READ, Quiet(false));
    var v' := CompleteReload(m.view, parses, FRESH_READ, Quiet(false)).view;
    SameDocsRunTheSame(m.view.store, v'.store, parses);
    ReloadKeeps(m.view, parses, FRESH_READ, Quiet(false));
    SoundIsOk(v', parses);
  }

  lemma BothAreReached(good: Body, bad: Body, parses: string -> bool)
    requires parses(good.expression) && !parses(bad.expression)
    ensures var v := BothCreated(good, bad).view;
      && StoreOk(Created(good).view.store)
      && Next(Created(good), ApiEvent(ApiCreate(1, bad)), parses) == BothCreated(good, bad)
      && Sound(v, parses) && v.jobs == map[] && v.mem == map[] && !BothCreated(good, bad).wasLeader
      && StoreOk(v.store) && PartlyRunnable(v.store, parses)
  {
    CreatedIsReached(good, parses);
    SoundIsOk(Created(good).view, parses);
    NextKeeps(Created(good), ApiEvent(ApiCreate(1, bad)), parses);
    assert 0 in Runnable(BothCreated(good, bad).view.store, parses);
    assert 1 in UndeletedIds(BothCreated(good, bad).view.store);
  }
}
