/**
Bulk requests and the two sweeps built on them: ReapTimedOutTasks and ArchiveOldTasks, each a scroll
over the pages of a search (internal/infra/elasticsearch/task/service.go).
*/
module TaskSweeps {
  import opened Wrappers
  import opened Backoff
  import opened VersionedStore
  import opened Tasks
  import opened TaskPersistence
  import opened TaskProtocol
  import opened TaskRecords
  import opened TaskRuns
  import opened TaskService
  import opened TaskMaintenance

  /** One item of a bulk update: a changed copy and the transition that changed it. */
  datatype BulkItem = BulkItem(held: Held, op: Op)

  ghost predicate ItemOk(s: TaskStore, item: BulkItem) {
    Justified(s, Key(item.held.task.queue, item.held.task.id), item.held.version, ToPersistedTask(item.held.task),
        item.op)
  }

  /** What surrounds a bulk request: what others do before each item, each item's fate, and whether the
      request as a whole fails (not sent, or answered too late). */
  datatype BulkPlan = BulkPlan(others: nat -> seq<Action>, fate: nat -> Fate, notSent: bool, answerLost: bool)

  function BulkAttempts(items: seq<BulkItem>, plan: BulkPlan): seq<Action> {
    seq(|items|, i requires 0 <= i < |items| => Attempt(items[i].held.version, items[i].op, plan.fate(i)))
  }

  /** The item's write was accepted as that version, replacing the copy it was computed from. */
  ghost predicate ItemCommitted(s: TaskStore, item: BulkItem, reply: Reply) {
    reply.Committed? ==>
      && reply.version < |s.log|
      && s.log[reply.version].doc == ToPersistedTask(item.held.task)
      && s.log[reply.version].replaced == Some(item.held.version)
      && s.log[reply.version].cause == By(item.op)
  }

  /** The versions under which items were accepted, in order. */
  function AcceptedVersions(replies: seq<Reply>): seq<Version> {
    if replies == [] then []
    else
      var n := |replies| - 1;
      AcceptedVersions(replies[..n]) + if replies[n].Committed? then [replies[n].version] else []
  }

  /** Each of the versions is that of one of the items. */
  ghost predicate WrittenBy(s: TaskStore, versions: seq<Version>, items: seq<BulkItem>) {
    forall v :: v in versions ==> v < |s.log| && exists i :: 0 <= i < |items| && s.log[v].cause == By(items[i].op)
  }

  lemma WrittenStays(s: TaskStore, s': TaskStore, versions: seq<Version>, items: seq<BulkItem>)
    requires WrittenBy(s, versions, items) && s.log <= s'.log
    ensures WrittenBy(s', versions, items)
  {
  }

  /** From before to after, the actions sent are among what has happened. */
  ghost predicate Happened(before: seq<Action>, after: seq<Action>, sent: seq<Action>) {
    before <= after && forall i :: 0 <= i < |sent| ==> sent[i] in after[|before|..]
  }

  lemma HappenedOn(before: seq<Action>, after: seq<Action>, sent: seq<Action>, others: seq<Action>, a: Action)
    requires Happened(before, after, sent)
    ensures Happened(before, after + others + [a], sent + [a])
  {
    var later := after + others + [a];
    assert later[|before|..] == after[|before|..] + others + [a];
  }

  lemma HappenedConcat(t0: seq<Action>, t1: seq<Action>, t2: seq<Action>, a: seq<Action>, b: seq<Action>)
    requires Happened(t0, t1, a) && Happened(t1, t2, b)
    ensures Happened(t0, t2, a + b)
  {
    assert t2[|t0|..] == t1[|t0|..] + t2[|t1|..];
  }

  function ItemKey(item: BulkItem): Key { Key(item.held.task.queue, item.held.task.id) }

  /** The copy is live. */
  predicate LiveItem(s: TaskStore, item: BulkItem) { Holds(s, ItemKey(item), item.held.version) }

  /** None of the first n items is for that version. */
  ghost predicate NewAfter(items: seq<BulkItem>, n: nat, v: Version)
    requires n <= |items|
  {
    forall j :: 0 <= j < n ==> items[j].held.version != v
  }

  /** Nobody else writes during the request, and all its items are served and answered. */
  ghost predicate Undisturbed(plan: BulkPlan) {
    !plan.notSent && !plan.answerLost && forall i :: plan.others(i) == [] && plan.fate(i).Served?
  }

  /** Of what was live at first, the first n items have taken no version but their own. */
  ghost predicate StillLive(s0: TaskStore, s: TaskStore, items: seq<BulkItem>, n: nat)
    requires n <= |items|
  {
    forall k, v :: Holds(s0, k, v) && NewAfter(items, n, v) ==> Holds(s, k, v)
  }

  /** Each copy that was live at first is accepted when its version is used for the first time. */
  ghost predicate FirstsAccepted(s0: TaskStore, items: seq<BulkItem>, replies: seq<Reply>)
    requires |replies| <= |items|
  {
    forall i :: 0 <= i < |replies| && LiveItem(s0, items[i]) && NewAfter(items, i, items[i].held.version) ==>
      replies[i].Committed?
  }

  lemma OneMoreServed(s0: TaskStore, s: TaskStore, items: seq<BulkItem>, replies: seq<Reply>, fate: Fate)
    requires |replies| < |items| && StillLive(s0, s, items, |replies|) && FirstsAccepted(s0, items, replies)
    requires fate.Served?
    ensures var item := items[|replies|];
      var (s', reply) :=
        IndexIf(s, ItemKey(item), item.held.version, ToPersistedTask(item.held.task), By(item.op), fate);
      StillLive(s0, s', items, |replies| + 1) && FirstsAccepted(s0, items, replies + [reply])
  {
    var n, item := |replies|, items[|replies|];
    var (s', reply) :=
        IndexIf(s, ItemKey(item), item.held.version, ToPersistedTask(item.held.task), By(item.op), fate);
    forall k, v | Holds(s0, k, v) && NewAfter(items, n + 1, v)
      ensures Holds(s', k, v)
    {
      assert NewAfter(items, n, v) && items[n].held.version != v;
    }
  }

  lemma NothingServed(s: TaskStore, items: seq<BulkItem>)
    ensures StillLive(s, s, items, 0) && FirstsAccepted(s, items, [])
  {
  }

  /** bulkUpdateTasks and sendBulk: the items are handled in order, each on its own. */
  method BulkUpdateTasks(cluster: Cluster, items: seq<BulkItem>, plan: BulkPlan)
    returns (r: Result<seq<Reply>, ServiceError>)
    requires cluster.Valid()
    requires forall i :: 0 <= i < |items| ==> ItemOk(cluster.world.store, items[i])
    modifies cluster
    ensures cluster.Valid()
    ensures old(cluster.world).store.log <= cluster.world.store.log
    ensures r.Failure? <==> plan.notSent || plan.answerLost
    ensures cluster.mine == old(cluster.mine) + if plan.notSent then [] else BulkAttempts(items, plan)
    ensures Happened(old(cluster.trace), cluster.trace, if plan.notSent then [] else BulkAttempts(items, plan))
    ensures r.Success? ==>
      && |r.value| == |items|
      && (forall i :: 0 <= i < |items| ==> ItemCommitted(cluster.world.store, items[i], r.value[i]))
      && cluster.accepted == old(cluster.accepted) + AcceptedVersions(r.value)
    ensures old(cluster.accepted) <= cluster.accepted
    ensures WrittenBy(cluster.world.store, cluster.accepted[|old(cluster.accepted)|..], items)
    ensures Undisturbed(plan) ==>
      && r.Success? && FirstsAccepted(old(cluster.world).store, items, r.value)
      && StillLive(old(cluster.world).store, cluster.world.store, items, |items|)
  {
    hide Run, Step, Inv, Apply, Justified, Rising, WrittenBy, Happened, AcceptedVersions, StillLive, FirstsAccepted;
    NothingServed(cluster.world.store, items);
    NothingHappened(cluster.trace, cluster.world.store, items);
    assert cluster.accepted[|cluster.accepted|..] == [];
    if plan.notSent { return Failure(StoreError); }
    var replies: seq<Reply> := [];
    var i := 0;
    while i < |items|
      invariant 0 <= i <= |items| && |replies| == i
      invariant cluster.Valid()
      invariant old(cluster.world).store.log <= cluster.world.store.log
      invariant cluster.mine == old(cluster.mine) + BulkAttempts(items, plan)[..i]
      invariant Happened(old(cluster.trace), cluster.trace, BulkAttempts(items, plan)[..i])
      invariant forall j :: 0 <= j < i ==> ItemCommitted(cluster.world.store, items[j], replies[j])
      invariant cluster.accepted == old(cluster.accepted) + AcceptedVersions(replies)
      invariant WrittenBy(cluster.world.store, AcceptedVersions(replies), items)
      invariant Undisturbed(plan) ==>
        && StillLive(old(cluster.world).store, cluster.world.store, items, i)
        && FirstsAccepted(old(cluster.world).store, items, replies)
    {
      var item := items[i];
      ghost var world, before, trace := cluster.world, cluster.world.store, cluster.trace;
      cluster.Interfere(plan.others(i));
      ItemStays(old(cluster.world).store, cluster.world.store, item);
      if Undisturbed(plan) {
        assert plan.others(i) == [] && plan.fate(i).Served?;
        RunNothing(world);
        OneMoreServed(old(cluster.world).store, cluster.world.store, items, replies, plan.fate(i));
      }
      var reply := cluster.Index(
        Key(item.held.task.queue, item.held.task.id), item.held.version, ToPersistedTask(item.held.task), item.op,
        plan.fate(i));
      assert BulkAttempts(items, plan)[..i + 1] ==
               BulkAttempts(items, plan)[..i] + [Attempt(item.held.version, item.op, plan.fate(i))];
      HappenedOn(old(cluster.trace), trace, BulkAttempts(items, plan)[..i], plan.others(i),
          Attempt(item.held.version, item.op, plan.fate(i)));
      CommitsStay(before, cluster.world.store, items[..i], replies);
      OneMoreAccepted(before, cluster.world.store, replies, reply, items, i);
      replies := replies + [reply];
      i := i + 1;
    }
    assert BulkAttempts(items, plan)[..i] == BulkAttempts(items, plan);
    assert cluster.accepted[|old(cluster.accepted)|..] == AcceptedVersions(replies);
    r := if plan.answerLost then Failure(StoreError) else Success(replies);
  }

  lemma NothingHappened(trace: seq<Action>, s: TaskStore, items: seq<BulkItem>)
    ensures Happened(trace, trace, []) && WrittenBy(s, [], items) && AcceptedVersions([]) == []
  {
  }

  lemma {:induction false} OneMoreAccepted(s: TaskStore, s': TaskStore, replies: seq<Reply>, reply: Reply,
                                           items: seq<BulkItem>, i: nat)
    requires WrittenBy(s, AcceptedVersions(replies), items) && s.log <= s'.log && i < |items|
    requires ItemCommitted(s', items[i], reply)
    ensures AcceptedVersions(replies + [reply]) ==
            AcceptedVersions(replies) + if reply.Committed? then [reply.version] else []
    ensures WrittenBy(s', AcceptedVersions(replies + [reply]), items)
  {
    hide WrittenBy;
    assert (replies + [reply])[..|replies|] == replies;
    WrittenStays(s, s', AcceptedVersions(replies), items);
    WrittenMore(s', AcceptedVersions(replies), if reply.Committed? then [reply.version] else [], items, i);
  }

  lemma WrittenMore(s: TaskStore, a: seq<Version>, b: seq<Version>, items: seq<BulkItem>, i: nat)
    requires WrittenBy(s, a, items) && i < |items|
    requires forall v :: v in b ==> v < |s.log| && s.log[v].cause == By(items[i].op)
    ensures WrittenBy(s, a + b, items)
  {
  }

  lemma ItemStays(s: TaskStore, s': TaskStore, item: BulkItem)
    requires ItemOk(s, item) && s.log <= s'.log
    ensures ItemOk(s', item)
  {
    JustifiedStays(s, s', Key(item.held.task.queue, item.held.task.id), item.held.version,
        ToPersistedTask(item.held.task), item.op);
  }

  lemma CommitsStay(s: TaskStore, s': TaskStore, items: seq<BulkItem>, replies: seq<Reply>)
    requires |items| == |replies| && s.log <= s'.log
    requires forall j :: 0 <= j < |items| ==> ItemCommitted(s, items[j], replies[j])
    ensures forall j :: 0 <= j < |items| ==> ItemCommitted(s', items[j], replies[j])
  {
    forall j | 0 <= j < |items|
      ensures ItemCommitted(s', items[j], replies[j])
    {
      assert ItemCommitted(s, items[j], replies[j]);
    }
  }

  // ---- scrolling ----

  /** The two searches that are scrolled through. */
  datatype Search = ForTimedOut(now: Time) | ForArchivable(completedBefore: Time)

  predicate Matches(search: Search, doc: PersistedTask) {
    match search
    case ForTimedOut(now) => TimedOut(doc, now)
    case ForArchivable(completedBefore) => Archivable(doc, completedBefore)
  }

  /** The hits among the candidates the store offers: copies written at some time, and matching. */
  function Hits(s: TaskStore, candidates: seq<Version>, search: Search): (hits: seq<Version>)
    ensures forall i :: 0 <= i < |hits| ==> hits[i] < |s.log| && Matches(search, s.log[hits[i]].doc)
  {
    if candidates == [] then []
    else if candidates[0] < |s.log| && Matches(search, s.log[candidates[0]].doc) then
      [candidates[0]] + Hits(s, candidates[1..], search)
    else Hits(s, candidates[1..], search)
  }

  /** One page of a scroll, and what happens while it is worked on. */
  datatype Page = Page(candidates: seq<Version>, jitter: nat -> Jitter, bulk: BulkPlan, inserted: nat -> bool,
                       nextFails: bool)

  /** A search hides nothing that matches: of its candidates it returns those that are claimed and past their
      deadline, or finished long enough ago, and no other. */
  lemma {:induction false} HitsExactly(s: TaskStore, candidates: seq<Version>, search: Search, v: Version)
    ensures v in Hits(s, candidates, search) <==>
            && v in candidates && v < |s.log|
            && match search
               case ForTimedOut(now) => TimedOut(s.log[v].doc, now)
               case ForArchivable(completedBefore) => Archivable(s.log[v].doc, completedBefore)
    decreases candidates
  {
    if candidates != [] { HitsExactly(s, candidates[1..], search, v); }
  }

  /** And it keeps their order. */
  lemma {:induction false} HitsInOrder(s: TaskStore, a: seq<Version>, b: seq<Version>, search: Search)
    ensures Hits(s, a + b, search) == Hits(s, a, search) + Hits(s, b, search)
    decreases a
  {
    if a == [] {
      assert a + b == b;
    } else {
      assert (a + b)[1..] == a[1..] + b;
      HitsInOrder(s, a[1..], b, search);
    }
  }

  /** All hits a scroll returns: it ends at the first page without any. */
  function ScrolledHits(s: TaskStore, pages: seq<Page>, search: Search): seq<Version> {
    if pages == [] || Hits(s, pages[0].candidates, search) == [] then []
    else Hits(s, pages[0].candidates, search) + ScrolledHits(s, pages[1..], search)
  }

  /** A scroll returns what any of its pages does, up to the first page without hits. */
  lemma {:induction false} ScrollsToEmptyPage(s: TaskStore, pages: seq<Page>, search: Search, v: Version)
    ensures v in ScrolledHits(s, pages, search) <==>
            exists i :: ReachedPage(s, pages, search, i) && v in Hits(s, pages[i].candidates, search)
    decreases pages
  {
    hide Hits;
    if pages != [] && Hits(s, pages[0].candidates, search) != [] {
      ScrollsToEmptyPage(s, pages[1..], search, v);
      if i :| ReachedPage(s, pages[1..], search, i) && v in Hits(s, pages[1..][i].candidates, search) {
        assert ReachedPage(s, pages, search, i + 1);
      }
      if i :| ReachedPage(s, pages, search, i) && v in Hits(s, pages[i].candidates, search) {
        if i > 0 { assert ReachedPage(s, pages[1..], search, i - 1) && pages[1..][i - 1] == pages[i]; }
      }
      assert ReachedPage(s, pages, search, 0);
    }
  }

  ghost predicate ReachedPage(s: TaskStore, pages: seq<Page>, search: Search, i: int) {
    0 <= i < |pages| && forall j :: 0 <= j < i ==> Hits(s, pages[j].candidates, search) != []
  }

  /** One item per hit of a page: with the fate, and the jitter or the insert's outcome, of its own position. */
  function PageItems(hits: seq<Version>, page: Page, search: Search): (items: seq<Action>)
    ensures |items| == |hits|
  {
    match search
    case ForTimedOut(now) =>
      seq(|hits|, i requires 0 <= i < |hits| => Attempt(hits[i], Reap(now, page.jitter(i)), page.bulk.fate(i)))
    case ForArchivable(completedBefore) =>
      seq(|hits|, i requires 0 <= i < |hits| =>
                    Archive(hits[i], completedBefore, page.bulk.fate(i), page.inserted(i)))
  }

  /** All items of a sweep. */
  function SweepItems(s: TaskStore, pages: seq<Page>, search: Search): seq<Action> {
    if pages == [] || Hits(s, pages[0].candidates, search) == [] then []
    else PageItems(Hits(s, pages[0].candidates, search), pages[0], search) + SweepItems(s, pages[1..], search)
  }

  /** Where an item comes from. */
  ghost predicate ItemOf(s: TaskStore, pages: seq<Page>, search: Search, a: Action, i: int, j: int) {
    && ReachedPage(s, pages, search, i)
    && var hits := Hits(s, pages[i].candidates, search);
       && 0 <= j < |hits|
       && match search
          case ForTimedOut(now) => a == Attempt(hits[j], Reap(now, pages[i].jitter(j)), pages[i].bulk.fate(j))
          case ForArchivable(before) => a == Archive(hits[j], before, pages[i].bulk.fate(j), pages[i].inserted(j))
  }

  /** Each item of a sweep is that of one hit of one page that the scroll reached, as asked for: a failure at the
      reaper's clock reading, or a delete together with its insert. */
  lemma {:induction false} ItemsAreOfTheirPages(s: TaskStore, pages: seq<Page>, search: Search, k: nat)
    returns (i: nat, j: nat)
    requires k < |SweepItems(s, pages, search)|
    ensures ItemOf(s, pages, search, SweepItems(s, pages, search)[k], i, j)
    decreases pages
  {
    hide Hits, PageItems, ItemOf;
    var hits := Hits(s, pages[0].candidates, search);
    if k < |hits| {
      FirstPage(s, pages, search, k);
      i, j := 0, k;
    } else {
      i, j := ItemsAreOfTheirPages(s, pages[1..], search, k - |hits|);
      NextPage(s, pages, search, SweepItems(s, pages, search)[k], i, j);
      i := i + 1;
    }
  }

  lemma {:induction false} FirstPage(s: TaskStore, pages: seq<Page>, search: Search, j: nat)
    requires pages != [] && j < |Hits(s, pages[0].candidates, search)|
    ensures ItemOf(s, pages, search, PageItems(Hits(s, pages[0].candidates, search), pages[0], search)[j], 0, j)
  {
    hide Hits;
  }

  lemma {:induction false} NextPage(s: TaskStore, pages: seq<Page>, search: Search, a: Action, i: nat, j: nat)
    requires pages != [] && Hits(s, pages[0].candidates, search) != [] && ItemOf(s, pages[1..], search, a, i, j)
    ensures ItemOf(s, pages, search, a, i + 1, j)
  {
    hide Hits;
    assert pages[1..][i] == pages[i + 1];
    forall k | 0 <= k < i + 1
      ensures Hits(s, pages[k].candidates, search) != []
    {
      if k > 0 { assert pages[1..][k - 1] == pages[k]; }
    }
  }

  lemma {:induction false} SweepVersions(s: TaskStore, pages: seq<Page>, search: Search)
    ensures var items := SweepItems(s, pages, search);
      (forall i :: 0 <= i < |items| ==> !items[i].Create?) && VersionsOf(items) == ScrolledHits(s, pages, search)
    decreases pages
  {
    hide Hits;
    hide PageItems, VersionsOf;
    if pages != [] && Hits(s, pages[0].candidates, search) != [] {
      SweepVersions(s, pages[1..], search);
      var hits := Hits(s, pages[0].candidates, search);
      PageVersions(hits, pages[0], search);
      VersionsOfConcat(PageItems(hits, pages[0], search), SweepItems(s, pages[1..], search));
    } else {
      assert VersionsOf([]) == [] by { NoReaps(0); }
    }
  }

  lemma PageVersions(hits: seq<Version>, page: Page, search: Search)
    ensures var items := PageItems(hits, page, search);
      (forall i :: 0 <= i < |items| ==> !items[i].Create?) && VersionsOf(items) == hits
  {
  }

  lemma VersionsOfConcat(a: seq<Action>, b: seq<Action>)
    requires (forall i :: 0 <= i < |a| ==> !a[i].Create?) && (forall i :: 0 <= i < |b| ==> !b[i].Create?)
    ensures (forall i :: 0 <= i < |a + b| ==> !(a + b)[i].Create?) && VersionsOf(a + b) == VersionsOf(a) + VersionsOf(b)
  {
  }

  /** The request for a page is not sent or not answered, or the next page cannot be had. */
  predicate PageFails(page: Page) { page.bulk.notSent || page.bulk.answerLost || page.nextFails }

  /** A page that the scroll reaches, that has hits, and on which the sweep ends with an error. */
  ghost predicate FailsAt(s: TaskStore, pages: seq<Page>, search: Search, i: int) {
    && ReachedPage(s, pages, search, i) && Hits(s, pages[i].candidates, search) != []
    && PageFails(pages[i])
  }

  /** The scroll has come to page i without an error. */
  ghost predicate CameTo(s: TaskStore, pages: seq<Page>, search: Search, i: nat) {
    i <= |pages| && forall j :: 0 <= j < i ==> Hits(s, pages[j].candidates, search) != [] && !PageFails(pages[j])
  }

  lemma CameToFirst(s: TaskStore, pages: seq<Page>, search: Search)
    ensures CameTo(s, pages, search, 0)
  {
  }

  lemma {:induction false} PastEmptyPage(s: TaskStore, pages: seq<Page>, search: Search, i: nat, j: int)
    requires i < j && (i < |pages| ==> Hits(s, pages[i].candidates, search) == [])
    ensures !ReachedPage(s, pages, search, j)
  {
  }

  /** There it goes on, or ends with an error or without. */
  lemma {:induction false} CameOn(s: TaskStore, pages: seq<Page>, search: Search, i: nat)
    requires CameTo(s, pages, search, i)
    ensures i == |pages| || Hits(s, pages[i].candidates, search) == [] ==> !exists j :: FailsAt(s, pages, search, j)
    ensures i < |pages| && Hits(s, pages[i].candidates, search) != [] ==>
              if PageFails(pages[i]) then FailsAt(s, pages, search, i) else CameTo(s, pages, search, i + 1)
  {
    hide Hits;
    if i == |pages| || Hits(s, pages[i].candidates, search) == [] {
      forall j
        ensures !FailsAt(s, pages, search, j)
      {
        if j > i { PastEmptyPage(s, pages, search, i, j); }
      }
    }
  }

  /** The items of the first i pages have been sent. */
  ghost predicate Swept(s: TaskStore, pages: seq<Page>, search: Search, i: nat, sent: seq<Action>) {
    i <= |pages| && sent + SweepItems(s, pages[i..], search) == SweepItems(s, pages, search)
  }

  lemma SweepStart(s: TaskStore, pages: seq<Page>, search: Search)
    ensures Swept(s, pages, search, 0, [])
  {
    assert pages[0..] == pages;
    assert [] + SweepItems(s, pages, search) == SweepItems(s, pages, search);
  }

  /** A page without hits ends the sweep, and so does the last page; any other adds its items. */
  lemma {:induction false} SweepOn(s: TaskStore, pages: seq<Page>, search: Search, i: nat, sent: seq<Action>)
    requires Swept(s, pages, search, i, sent)
    ensures sent <= SweepItems(s, pages, search)
    ensures i == |pages| ==> sent == SweepItems(s, pages, search)
    ensures i < |pages| ==>
              var hits := Hits(s, pages[i].candidates, search);
              if hits == [] then sent == SweepItems(s, pages, search)
              else
                var more := sent + PageItems(hits, pages[i], search);
                Swept(s, pages, search, i + 1, more) && more <= SweepItems(s, pages, search)
  {
    hide Hits, PageItems;
    var rest := SweepItems(s, pages[i..], search);
    if i == |pages| || Hits(s, pages[i].candidates, search) == [] {
      assert rest == [];
      assert sent + [] == sent;
    } else {
      var items := PageItems(Hits(s, pages[i].candidates, search), pages[i], search);
      assert pages[i..][1..] == pages[i + 1..];
      RegroupItems(sent, items, SweepItems(s, pages[i + 1..], search));
    }
  }

  lemma RegroupItems(a: seq<Action>, b: seq<Action>, c: seq<Action>)
    ensures (a + b) + c == a + (b + c)
  {
  }

  function VersionsOf(actions: seq<Action>): seq<Version>
    requires forall i :: 0 <= i < |actions| ==> !actions[i].Create?
  {
    seq(|actions|, i requires 0 <= i < |actions| => actions[i].version)
  }

  /** One batch of the reaper: every scanned copy is failed in its claimer's name, and sent. */
  method ReapBatch(cluster: Cluster, ghost snapshot: TaskStore, hits: seq<Version>, now: Time, page: Page)
    returns (failed: bool, ghost sent: seq<Action>)
    requires cluster.Valid() && snapshot.log <= cluster.world.store.log
    requires forall i :: 0 <= i < |hits| ==> hits[i] < |snapshot.log| && TimedOut(snapshot.log[hits[i]].doc, now)
    modifies cluster
    ensures cluster.Valid() && snapshot.log <= cluster.world.store.log
    ensures cluster.mine == old(cluster.mine) + sent && IsReapPass(sent, now)
    ensures Happened(old(cluster.trace), cluster.trace, sent)
    ensures sent == PageItems(hits, page, ForTimedOut(now)) || (failed && sent == [])
    ensures failed <==> page.bulk.notSent || page.bulk.answerLost
  {
    hide Run, Step, Inv, ItemOk, Tasks.IntoFailed, ToDomainTask, Rising, Happened, PageItems, BulkAttempts, IsReapPass;
    hide FirstsAccepted, WrittenBy, Undisturbed;
    var aboutToTimeOut: seq<BulkItem> := [];
    var i := 0;
    while i < |hits|
      invariant cluster.Valid() && snapshot.log <= cluster.world.store.log
      invariant cluster.mine == old(cluster.mine) && cluster.trace == old(cluster.trace)
      invariant 0 <= i <= |hits| && |aboutToTimeOut| == i
      invariant forall j :: 0 <= j < i ==>
        && aboutToTimeOut[j].held.version == hits[j] && aboutToTimeOut[j].op == Reap(now, page.jitter(j))
        && ItemOk(cluster.world.store, aboutToTimeOut[j])
    {
      assert cluster.world.store.log[hits[i]] == snapshot.log[hits[i]];
      TimedOutCanFail(cluster.world, hits[i], now, page.jitter(i));
      var t := new TaskRecord(cluster.world.store.log[hits[i]].doc, hits[i]);
      ghost var scanned := t.Value();
      if t.lastClaimed != null {
        var failErr := t.IntoFailed(t.lastClaimed.workerId, now, TIMED_OUT, page.jitter(i));
        if failErr.None? {
          t.modifiedAt := now;
          var item := BulkItem(Held(t.Value(), t.version), Reap(now, page.jitter(i)));
          EligibleItemOk(cluster.world, hits[i], item);
          aboutToTimeOut := aboutToTimeOut + [item];
        }
      }
      i := i + 1;
    }
    var r := BulkUpdateTasks(cluster, aboutToTimeOut, page.bulk);
    failed := r.Failure?;
    sent := if page.bulk.notSent then [] else BulkAttempts(aboutToTimeOut, page.bulk);
    BatchIsPage(hits, aboutToTimeOut, now, page);
    NoReaps(now);
  }

  lemma BatchIsPage(hits: seq<Version>, items: seq<BulkItem>, now: Time, page: Page)
    requires |items| == |hits|
    requires forall j :: 0 <= j < |hits| ==>
               items[j].held.version == hits[j] && items[j].op == Reap(now, page.jitter(j))
    ensures BulkAttempts(items, page.bulk) == PageItems(hits, page, ForTimedOut(now))
    ensures IsReapPass(BulkAttempts(items, page.bulk), now)
  {
  }

  /** The reaper can fail every timed-out copy in its claimer's name. */
  lemma TimedOutCanFail(w: World, v: Version, now: Time, jitter: Jitter)
    requires Inv(w) && v < |w.store.log| && TimedOut(w.store.log[v].doc, now)
    ensures var t := TaskAt(w.store, v);
      t.lastClaimed.Some? && Tasks.IntoFailed(t, t.lastClaimed.value.workerId, now, TIMED_OUT, jitter).Success?
  {
    assert EntryOk(w.store, v);
    hide Inv, WaitSeconds;
  }

  lemma EligibleItemOk(w: World, v: Version, item: BulkItem)
    requires Inv(w) && v < |w.store.log| && Eligible(item.op, w.store.log[v].doc)
    requires item.held.version == v && Apply(item.op, TaskAt(w.store, v)) == Success(item.held.task)
    ensures ItemOk(w.store, item)
  {
    assert EntryOk(w.store, v);
    EligibleKeepsWellFormed(item.op, w.store.log[v].doc);
  }

  lemma NoReaps(now: Time)
    ensures IsReapPass([], now) && VersionsOf([]) == []
  {
  }

  lemma ReapsConcat(a: seq<Action>, b: seq<Action>, now: Time)
    requires IsReapPass(a, now) && IsReapPass(b, now)
    ensures IsReapPass(a + b, now) && VersionsOf(a + b) == VersionsOf(a) + VersionsOf(b)
  {
  }

  /** The scan returns every task that is timed out. */
  ghost predicate ScanComplete(s: TaskStore, pages: seq<Page>, now: Time) {
    forall k :: k in s.live && s.live[k] < |s.log| && TimedOut(s.log[s.live[k]].doc, now) ==>
      s.live[k] in ScrolledHits(s, pages, ForTimedOut(now))
  }

  ghost predicate AllArrive(sent: seq<Action>) {
    forall i :: 0 <= i < |sent| ==> sent[i].Attempt? && !sent[i].fate.Dropped?
  }

  /** Everything that happened from one trace to a longer one. */
  ghost function Since(before: seq<Action>, after: seq<Action>): seq<Action> {
    if before <= after then after[|before|..] else []
  }

  /** What the call promises of the store: if its scan was complete, all its items arrived and nobody set a
      deadline already past, nothing is timed out. */
  ghost predicate Reaped(w: World, run: seq<Action>, w': World, sent: seq<Action>, pages: seq<Page>, now: Time) {
    ScanComplete(w.store, pages, now) && AllArrive(sent) && IsReapRun(w, run, now) ==>
      Valid(w'.store) && NothingTimedOut(w', now)
  }

  lemma {:induction false} ReapedAll(trace: seq<Action>, later: seq<Action>, sent: seq<Action>, pages: seq<Page>,
                                     now: Time)
    requires Happened(trace, later, sent)
    requires Inv(Run(Initial(), trace)) && IsReapPass(sent, now)
    requires VersionsOf(sent) == ScrolledHits(Run(Initial(), trace).store, pages, ForTimedOut(now))
    ensures Reaped(Run(Initial(), trace), Since(trace, later), Run(Initial(), later), sent, pages, now)
  {
    hide Step, TimedOut, ScrolledHits, IsReapRun, NothingTimedOut;
    var w, run, hits := Run(Initial(), trace), Since(trace, later), VersionsOf(sent);
    assert later == trace + run;
    Extend(trace, run);
    InvIsValid(w);
    if ScanComplete(w.store, pages, now) && AllArrive(sent) && IsReapRun(w, run, now) {
      forall k | k in w.store.live
        ensures LiveOk(w.store, k)
        ensures TimedOut(w.store.log[w.store.live[k]].doc, now) ==>
                  exists i :: 0 <= i < |run| && Reaps(run[i], w.store.live[k], now)
      {
        if TimedOut(w.store.log[w.store.live[k]].doc, now) {
          var j :| 0 <= j < |hits| && hits[j] == w.store.live[k];
          assert sent[j] in run;
          var i :| 0 <= i < |run| && run[i] == sent[j];
          assert Reaps(run[i], w.store.live[k], now);
        }
      }
      ReapPassCatchesAll(w, run, now);
    }
  }

  /** The reaper sends one failure per scrolled hit, in order, all with one clock reading, and does nothing
      else to the store; on an error it stops early. */
  method ReapTimedOutTasks(cluster: Cluster, now: Time, pages: seq<Page>)
    returns (failed: bool, ghost sent: seq<Action>)
    requires cluster.Valid()
    modifies cluster
    ensures cluster.Valid()
    ensures cluster.mine == old(cluster.mine) + sent && IsReapPass(sent, now)
    ensures Happened(old(cluster.trace), cluster.trace, sent)
    ensures sent <= SweepItems(old(cluster.world).store, pages, ForTimedOut(now))
    ensures failed <==> exists i :: FailsAt(old(cluster.world).store, pages, ForTimedOut(now), i)
    ensures !failed ==>
      && sent == SweepItems(old(cluster.world).store, pages, ForTimedOut(now))
      && VersionsOf(sent) == ScrolledHits(old(cluster.world).store, pages, ForTimedOut(now))
      && Reaped(old(cluster.world), Since(old(cluster.trace), cluster.trace), cluster.world, sent, pages, now)
  {
    hide Run, Step, Inv, Hits, ScrolledHits, Swept, SweepItems, PageItems, VersionsOf, TimedOut, Rising, Happened;
    hide Reaped, Since, FailsAt, CameTo;
    var snapshot, search := cluster.world.store, ForTimedOut(now);
    SweepStart(snapshot, pages, search);
    CameToFirst(snapshot, pages, search);
    SweepOn(snapshot, pages, search, 0, []);
    SweepVersions(snapshot, pages, search);
    sent := [];
    NoReaps(now);
    NothingHappened(cluster.trace, snapshot, []);
    failed := false;
    var i := 0;
    while i < |pages|
      invariant 0 <= i <= |pages| && !failed
      invariant cluster.Valid() && snapshot.log <= cluster.world.store.log
      invariant cluster.mine == old(cluster.mine) + sent && IsReapPass(sent, now)
      invariant Happened(old(cluster.trace), cluster.trace, sent)
      invariant Swept(snapshot, pages, search, i, sent) && CameTo(snapshot, pages, search, i)
    {
      var hits := Hits(snapshot, pages[i].candidates, search);
      SweepOn(snapshot, pages, search, i, sent);
      CameOn(snapshot, pages, search, i);
      if hits == [] {
        ReapedAll(old(cluster.trace), cluster.trace, sent, pages, now);
        return;
      }
      HitsAre(snapshot, pages[i].candidates, search);
      ghost var batch, trace := [], cluster.trace;
      failed, batch := ReapBatch(cluster, snapshot, hits, now, pages[i]);
      ReapsConcat(sent, batch, now);
      HappenedConcat(old(cluster.trace), trace, cluster.trace, sent, batch);
      assert sent + [] == sent;
      sent := sent + batch;
      if failed || pages[i].nextFails {
        failed := true;
        return;
      }
      i := i + 1;
    }
    SweepOn(snapshot, pages, search, i, sent);
    CameOn(snapshot, pages, search, i);
    ReapedAll(old(cluster.trace), cluster.trace, sent, pages, now);
  }

  /** A pass of archivals of Archivable copies. */
  ghost predicate IsArchivePass(s: TaskStore, pass: seq<Action>, completedBefore: Time) {
    forall i :: 0 <= i < |pass| ==>
      && pass[i].Archive? && pass[i].completedBefore == completedBefore
      && pass[i].version < |s.log| && Archivable(s.log[pass[i].version].doc, completedBefore)
  }

  lemma {:induction false} HitsAre(s: TaskStore, candidates: seq<Version>, search: Search)
    ensures var hits := Hits(s, candidates, search);
      forall i :: 0 <= i < |hits| ==>
        hits[i] < |s.log| && match search
                             case ForTimedOut(now) => TimedOut(s.log[hits[i]].doc, now)
                             case ForArchivable(before) => Archivable(s.log[hits[i]].doc, before)
  {
  }

  lemma EmptyPass(s: TaskStore, completedBefore: Time)
    ensures IsArchivePass(s, [], completedBefore) && VersionsOf([]) == []
  {
  }

  lemma PassesConcat(s: TaskStore, a: seq<Action>, b: seq<Action>, completedBefore: Time)
    requires IsArchivePass(s, a, completedBefore) && IsArchivePass(s, b, completedBefore)
    ensures IsArchivePass(s, a + b, completedBefore)
    ensures VersionsOf(a + b) == VersionsOf(a) + VersionsOf(b)
  {
  }

  /** The archivals among what has happened. */
  function ArchivalsOf(run: seq<Action>): seq<Action> {
    if run == [] then []
    else ArchivalsOf(run[..|run| - 1]) + if run[|run| - 1].Archive? then [run[|run| - 1]] else []
  }

  lemma {:induction false} ArchivalsConcat(a: seq<Action>, b: seq<Action>)
    ensures ArchivalsOf(a + b) == ArchivalsOf(a) + ArchivalsOf(b)
    decreases b
  {
    if b == [] {
      assert a + b == a;
    } else {
      assert (a + b)[..|a + b| - 1] == a + b[..|b| - 1];
      ArchivalsConcat(a, b[..|b| - 1]);
    }
  }

  ghost predicate NoArchivals(run: seq<Action>) { forall i :: 0 <= i < |run| ==> !run[i].Archive? }

  lemma {:induction false} NoneAreArchivals(run: seq<Action>)
    requires NoArchivals(run)
    ensures ArchivalsOf(run) == []
  {
    if run != [] { NoneAreArchivals(run[..|run| - 1]); }
  }

  /** Nobody else archives during the sweep. */
  ghost predicate OthersArchiveNothing(page: Page) { forall j :: NoArchivals(page.bulk.others(j)) }

  ghost predicate SoleArchiver(pages: seq<Page>) { forall i :: 0 <= i < |pages| ==> OthersArchiveNothing(pages[i]) }

  /** From before to after, the items sent are among what has happened, and, if this is the sole archiver, they
      are all the archivals. */
  ghost predicate Archivals(before: seq<Action>, after: seq<Action>, sent: seq<Action>, sole: bool) {
    Happened(before, after, sent) && (sole ==> ArchivalsOf(Since(before, after)) == sent)
  }

  lemma ArchivalsStart(trace: seq<Action>, sole: bool)
    ensures Archivals(trace, trace, [], sole)
  {
  }

  lemma ArchivalsOn(before: seq<Action>, after: seq<Action>, sent: seq<Action>, sole: bool, others: seq<Action>,
                    a: Action)
    requires Archivals(before, after, sent, sole) && a.Archive? && (sole ==> NoArchivals(others))
    ensures Archivals(before, after + others + [a], sent + [a], sole)
  {
    hide ArchivalsOf, Happened;
    HappenedOn(before, after, sent, others, a);
    if sole {
      BeforeIsPrefix(before, after, sent);
      NoneAreArchivals(others);
      assert Since(before, after + others + [a]) == Since(before, after) + (others + [a]);
      ArchivalsConcat(Since(before, after), others + [a]);
      ArchivalsConcat(others, [a]);
      assert ArchivalsOf([a]) == [a] by { OneArchival(a); }
    }
  }

  lemma OneArchival(a: Action)
    requires a.Archive?
    ensures ArchivalsOf([a]) == [a]
  {
    assert [a][..0] == [];
  }

  lemma BeforeIsPrefix(before: seq<Action>, after: seq<Action>, sent: seq<Action>)
    requires Happened(before, after, sent)
    ensures before <= after
  {
  }

  lemma ArchivalsJoin(t0: seq<Action>, t1: seq<Action>, t2: seq<Action>, a: seq<Action>, b: seq<Action>, sole: bool)
    requires Archivals(t0, t1, a, sole) && Archivals(t1, t2, b, sole)
    ensures Archivals(t0, t2, a + b, sole)
  {
    hide ArchivalsOf, Happened;
    HappenedConcat(t0, t1, t2, a, b);
    BeforeIsPrefix(t0, t1, a);
    BeforeIsPrefix(t1, t2, b);
    if sole {
      assert Since(t0, t2) == Since(t0, t1) + Since(t1, t2);
      ArchivalsConcat(Since(t0, t1), Since(t1, t2));
    }
  }

  // ---- what the archiver's items achieve ----

  lemma StepArchives(w: World, a: Action)
    ensures w.archive <= Step(w, a).archive
    ensures && a.Archive? && a.inserted && a.version < |w.store.log|
            && Archivable(w.store.log[a.version].doc, a.completedBefore) ==>
              w.store.log[a.version].doc in Step(w, a).archive
  {
    hide Apply, Eligible, Archivable, NewDocument, ToDomainTask, ToPersistedTask;
  }

  lemma {:induction false} RunArchives(w: World, run: seq<Action>)
    ensures w.archive <= Run(w, run).archive
    decreases run
  {
    hide Step;
    if run != [] {
      StepArchives(w, run[0]);
      RunArchives(Step(w, run[0]), run[1..]);
    }
  }

  /** An insert that takes effect is still there at the end, whatever happens around it. */
  lemma {:induction false} InsertedIsArchived(w: World, run: seq<Action>, a: Action)
    requires a in run && a.Archive? && a.inserted && a.version < |w.store.log|
    requires Archivable(w.store.log[a.version].doc, a.completedBefore)
    ensures w.store.log[a.version].doc in Run(w, run).archive
    decreases run
  {
    hide Step, Archivable;
    StepArchives(w, run[0]);
    StepGrows(w, run[0]);
    if run[0] == a {
      RunArchives(Step(w, run[0]), run[1..]);
    } else {
      assert Step(w, run[0]).store.log[a.version] == w.store.log[a.version];
      InsertedIsArchived(Step(w, run[0]), run[1..], a);
    }
  }

  /** A fresh archival takes its document out of the queue for good. */
  lemma {:induction false} ArchivedIsGone(w: World, run: seq<Action>, a: Action)
    requires Inv(w) && a in run && a.Archive? && FreshArchival(w, a)
    ensures a.version < |Run(w, run).store.log| && Run(w, run).store.log[a.version] == w.store.log[a.version]
    ensures !Holds(Run(w, run).store, w.store.log[a.version].key, a.version)
    decreases run
  {
    hide Inv, Step, FreshArchival;
    StepGrows(w, run[0]);
    StepKeepsInv(w, run[0]);
    FreshVersion(w, a);
    assert Step(w, run[0]).store.log[a.version] == w.store.log[a.version];
    var key := w.store.log[a.version].key;
    if run[0].Archive? && run[0].version == a.version && !Holds(Step(w, run[0]).store, key, a.version) {
      VersionsNeverReturn(Step(w, run[0]), a.version, run[1..]);
    } else if run[0] == a {
      FreshIsRemoved(w, a);
      assert false;
    } else {
      StaysFresh(w, run[0], a);
      ArchivedIsGone(Step(w, run[0]), run[1..], a);
    }
  }

  lemma FreshVersion(w: World, a: Action)
    requires a.Archive? && FreshArchival(w, a)
    ensures a.version < |w.store.log|
  {
  }

  lemma FreshIsRemoved(w: World, a: Action)
    requires a.Archive? && FreshArchival(w, a)
    ensures !Holds(Step(w, a).store, w.store.log[a.version].key, a.version)
  {
  }

  lemma StaysFresh(w: World, a: Action, item: Action)
    requires Inv(w) && item.Archive? && FreshArchival(w, item)
    requires !a.Archive? || a.version != item.version ||
             Holds(Step(w, a).store, w.store.log[item.version].key, item.version)
    ensures FreshArchival(Step(w, a), item)
  {
    StepGrows(w, a);
    if !a.Archive? || a.version != item.version {
      FreshArchivalStays(w, a, item);
    } else {
      hide Step, Inv;
      assert Step(w, a).store.log[item.version] == w.store.log[item.version];
    }
  }

  /** If the items are live copies, all different, all of whose deletes and inserts arrive, and there are no other
      archivals in the run, then the run is one that conserves. */
  lemma {:induction false} SoleArchivalsConserve(w: World, run: seq<Action>)
    requires IsFreshArchivePass(w, ArchivalsOf(run))
    ensures IsArchiveRun(w, run)
  {
    if run != [] {
      var front, a := run[..|run| - 1], run[|run| - 1];
      var rest := ArchivalsOf(front);
      assert rest <= ArchivalsOf(run);
      assert IsFreshArchivePass(w, rest);
      SoleArchivalsConserve(w, front);
      forall i | 0 <= i < |run| && run[i].Archive?
        ensures FreshArchival(w, run[i])
      {
        ArchivalIsListed(run, i);
      }
      forall i | 0 <= i < |run| - 1 && run[i].Archive? && a.Archive?
        ensures run[i].version != a.version
      {
        ArchivalIsListed(front, i);
        var k :| 0 <= k < |rest| && rest[k] == front[i];
        assert ArchivalsOf(run)[k] == front[i] && ArchivalsOf(run)[|rest|] == a;
      }
    }
  }

  lemma {:induction false} ArchivalIsListed(run: seq<Action>, i: nat)
    requires i < |run| && run[i].Archive?
    ensures run[i] in ArchivalsOf(run)
  {
    if i < |run| - 1 { ArchivalIsListed(run[..|run| - 1], i); }
  }

  lemma {:induction false} AllAreArchivals(run: seq<Action>)
    requires forall i :: 0 <= i < |run| ==> run[i].Archive?
    ensures ArchivalsOf(run) == run
  {
    if run != [] { AllAreArchivals(run[..|run| - 1]); }
  }

  /** What the call promises of the store. Every copy that was sent is in the archive if its insert takes effect.
      If the copies were live, all different, their deletes and inserts arrive, and nobody else archives, then
      each archival loses and duplicates nothing when its turn comes, and all those documents have left the
      queues; and if nobody else acts at all, the call as a whole loses and duplicates nothing. */
  ghost predicate Archived(w: World, run: seq<Action>, w': World, sent: seq<Action>, sole: bool)
    requires Inv(w) && Inv(w')
  {
    && (forall i :: 0 <= i < |sent| ==> sent[i].Archive? && sent[i].version < |w.store.log|)
    && (forall i :: 0 <= i < |sent| && sent[i].inserted ==> w.store.log[sent[i].version].doc in w'.archive)
    && (sole && IsFreshArchivePass(w, sent) ==>
          && EachArchivalConserves(w, run)
          && (forall i :: 0 <= i < |sent| ==> !Holds(w'.store, w.store.log[sent[i].version].key, sent[i].version))
          && ((forall i :: 0 <= i < |run| ==> run[i].Archive?) ==> Holdings(w') == Holdings(w)))
  }

  lemma {:induction false} ArchivedAll(trace: seq<Action>, later: seq<Action>, sent: seq<Action>, sole: bool,
                                       completedBefore: Time)
    requires Inv(Run(Initial(), trace)) && Inv(Run(Initial(), later))
    requires Archivals(trace, later, sent, sole)
    requires IsArchivePass(Run(Initial(), trace).store, sent, completedBefore)
    ensures Archived(Run(Initial(), trace), Since(trace, later), Run(Initial(), later), sent, sole)
  {
    hide Inv, Run, Step, Archivable, EachArchivalConserves, Holdings, ArchivalsOf, IsFreshArchivePass;
    var w, run := Run(Initial(), trace), Since(trace, later);
    assert later == trace + run;
    RunConcat(Initial(), trace, run);
    forall i | 0 <= i < |sent| && sent[i].inserted
      ensures w.store.log[sent[i].version].doc in Run(w, run).archive
    {
      InsertedIsArchived(w, run, sent[i]);
    }
    if sole && IsFreshArchivePass(w, sent) { SoleArchiverConserves(w, run); }
  }

  lemma {:induction false} SoleArchiverConserves(w: World, run: seq<Action>)
    requires Inv(w) && IsFreshArchivePass(w, ArchivalsOf(run))
    ensures EachArchivalConserves(w, run) && Inv(Run(w, run))
    ensures var sent := ArchivalsOf(run);
      forall i :: 0 <= i < |sent| ==>
        && sent[i].Archive? && sent[i].version < |w.store.log|
        && !Holds(Run(w, run).store, w.store.log[sent[i].version].key, sent[i].version)
    ensures (forall i :: 0 <= i < |run| ==> run[i].Archive?) ==> Holdings(Run(w, run)) == Holdings(w)
  {
    hide Inv, Run, Step, Archivable, EachArchivalConserves, Holdings, IsArchiveRun;
    SoleArchivalsConserve(w, run);
    ArchivePassConserves(w, run);
    RunKeepsInv(w, run);
    var sent := ArchivalsOf(run);
    forall i | 0 <= i < |sent|
      ensures !Holds(Run(w, run).store, w.store.log[sent[i].version].key, sent[i].version)
    {
      ListedHappened(run, sent[i]);
      ArchivedIsGone(w, run, sent[i]);
    }
    if forall i :: 0 <= i < |run| ==> run[i].Archive? {
      AllAreArchivals(run);
      FreshArchivePassConserves(w, run);
    }
  }

  lemma {:induction false} ListedHappened(run: seq<Action>, a: Action)
    requires a in ArchivalsOf(run)
    ensures a in run
  {
    var front := run[..|run| - 1];
    if a in ArchivalsOf(front) { ListedHappened(front, a); }
  }

  /** The archiver sends, per scrolled hit and in order, a versioned delete and an unversioned insert. */
  method ArchiveOldTasks(cluster: Cluster, completedBefore: Time, pages: seq<Page>)
    returns (failed: bool, ghost sent: seq<Action>)
    requires cluster.Valid()
    modifies cluster
    ensures cluster.Valid()
    ensures cluster.mine == old(cluster.mine) + sent
    ensures IsArchivePass(old(cluster.world).store, sent, completedBefore)
    ensures sent <= SweepItems(old(cluster.world).store, pages, ForArchivable(completedBefore))
    ensures failed <==> exists i :: FailsAt(old(cluster.world).store, pages, ForArchivable(completedBefore), i)
    ensures Archived(old(cluster.world), Since(old(cluster.trace), cluster.trace), cluster.world, sent,
                     SoleArchiver(pages))
    ensures !failed ==>
      && sent == SweepItems(old(cluster.world).store, pages, ForArchivable(completedBefore))
      && VersionsOf(sent) == ScrolledHits(old(cluster.world).store, pages, ForArchivable(completedBefore))
  {
    hide Run, Step, Inv, Hits, ScrolledHits, Swept, SweepItems, PageItems, VersionsOf, Archivable, Rising, Happened;
    hide Archived, Archivals, Since, IsArchivePass, FailsAt, CameTo, SoleArchiver, OthersArchiveNothing;
    var snapshot, search := cluster.world.store, ForArchivable(completedBefore);
    ghost var sole := SoleArchiver(pages);
    EmptyPass(snapshot, completedBefore);
    SweepStart(snapshot, pages, search);
    CameToFirst(snapshot, pages, search);
    SweepOn(snapshot, pages, search, 0, []);
    SweepVersions(snapshot, pages, search);
    ArchivalsStart(cluster.trace, sole);
    sent := [];
    failed := false;
    var i := 0;
    while i < |pages|
      invariant 0 <= i <= |pages| && !failed
      invariant cluster.Valid() && snapshot.log <= cluster.world.store.log
      invariant cluster.mine == old(cluster.mine) + sent && IsArchivePass(snapshot, sent, completedBefore)
      invariant Archivals(old(cluster.trace), cluster.trace, sent, sole)
      invariant Swept(snapshot, pages, search, i, sent) && CameTo(snapshot, pages, search, i)
    {
      var hits := Hits(snapshot, pages[i].candidates, search);
      SweepOn(snapshot, pages, search, i, sent);
      CameOn(snapshot, pages, search, i);
      if hits == [] {
        ArchivedAll(old(cluster.trace), cluster.trace, sent, sole, completedBefore);
        return;
      }
      HitsAre(snapshot, pages[i].candidates, search);
      ghost var batch, trace := [], cluster.trace;
      failed, batch := ArchiveBatch(cluster, snapshot, hits, completedBefore, pages[i]);
      PassesConcat(snapshot, sent, batch, completedBefore);
      SolePage(trace, cluster.trace, batch, pages, i);
      ArchivalsJoin(old(cluster.trace), trace, cluster.trace, sent, batch, sole);
      assert sent + [] == sent;
      sent := sent + batch;
      if failed || pages[i].nextFails {
        failed := true;
        ArchivedAll(old(cluster.trace), cluster.trace, sent, sole, completedBefore);
        return;
      }
      i := i + 1;
    }
    SweepOn(snapshot, pages, search, i, sent);
    CameOn(snapshot, pages, search, i);
    ArchivedAll(old(cluster.trace), cluster.trace, sent, sole, completedBefore);
  }

  lemma SolePage(before: seq<Action>, after: seq<Action>, sent: seq<Action>, pages: seq<Page>, i: nat)
    requires i < |pages| && Archivals(before, after, sent, OthersArchiveNothing(pages[i]))
    ensures Archivals(before, after, sent, SoleArchiver(pages))
  {
  }

  method ArchiveBatch(cluster: Cluster, ghost snapshot: TaskStore, hits: seq<Version>, completedBefore: Time,
                      page: Page)
    returns (failed: bool, ghost sent: seq<Action>)
    requires cluster.Valid() && snapshot.log <= cluster.world.store.log
    requires forall i :: 0 <= i < |hits| ==>
               hits[i] < |snapshot.log| && Archivable(snapshot.log[hits[i]].doc, completedBefore)
    modifies cluster
    ensures cluster.Valid() && snapshot.log <= cluster.world.store.log
    ensures cluster.mine == old(cluster.mine) + sent && IsArchivePass(snapshot, sent, completedBefore)
    ensures Archivals(old(cluster.trace), cluster.trace, sent, OthersArchiveNothing(page))
    ensures sent == PageItems(hits, page, ForArchivable(completedBefore)) || (failed && sent == [])
    ensures failed <==> page.bulk.notSent || page.bulk.answerLost
  {
    hide Run, Step, Inv, Archivals, Rising;
    sent := [];
    ghost var sole, items := OthersArchiveNothing(page), PageItems(hits, page, ForArchivable(completedBefore));
    ArchivalsStart(cluster.trace, sole);
    if page.bulk.notSent {
      failed := true;
      return;
    }
    var i := 0;
    while i < |hits|
      invariant 0 <= i <= |hits|
      invariant cluster.Valid() && snapshot.log <= cluster.world.store.log
      invariant cluster.mine == old(cluster.mine) + sent && IsArchivePass(snapshot, sent, completedBefore)
      invariant Archivals(old(cluster.trace), cluster.trace, sent, sole)
      invariant sent == items[..i]
    {
      ghost var trace := cluster.trace;
      cluster.Interfere(page.bulk.others(i));
      assert cluster.world.store.log[hits[i]] == snapshot.log[hits[i]];
      cluster.DeleteAndArchive(hits[i], completedBefore, page.bulk.fate(i), page.inserted(i));
      ghost var a := Archive(hits[i], completedBefore, page.bulk.fate(i), page.inserted(i));
      ArchivalsOn(old(cluster.trace), trace, sent, sole, page.bulk.others(i), a);
      assert a == items[i] && items[..i + 1] == items[..i] + [items[i]];
      sent := sent + [a];
      i := i + 1;
    }
    assert items[..i] == items;
    failed := page.bulk.answerLost;
  }
}
