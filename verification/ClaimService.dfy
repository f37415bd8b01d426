/**
Claiming tasks: nested search loops bounded by time, then a window that slides over the search hits
(Claim, retryWait, searchAndClaim and makeClaim in internal/infra/elasticsearch/task/service.go).
*/
module ClaimService {
  import opened Wrappers
  import opened VersionedStore
  import opened Tasks
  import opened TaskPersistence
  import opened TaskProtocol
  import opened TaskService
  import opened TaskSweeps

  const INT_LIMIT: int := 0x8000_0000_0000_0000

  /** Reinterprets a uint64 as an int64, as a conversion to time.Duration does. */
  function Signed(n: Uint): int { if n < INT_LIMIT then n else n - UINT_SIZE }

  function RetryWait(minWait: Time, maxRetries: Uint, blockFor: Time): Time {
    if maxRetries > 0 then
      var even := Signed(Wrap(blockFor) / maxRetries);
      if even > minWait then even else minWait
    else minWait
  }

  /** How many waits of the given length can begin before blockFor has passed. */
  function MaxSleeps(blockFor: Time, wait: Time): nat
    requires wait > 0
  {
    if blockFor <= 0 then 0 else (blockFor + wait - 1) / wait
  }

  lemma SleepFits(sleeps: nat, blockFor: Time, wait: Time)
    requires wait > 0 && sleeps * wait < blockFor
    ensures sleeps + 1 <= MaxSleeps(blockFor, wait)
  {
  }

  /** For an ordinary block time the wait is the larger of the minimum and an even share, if a maximum
      number of retries is set, and the minimum otherwise. */
  lemma RetryWaitMeaning(minWait: Time, maxRetries: Uint, blockFor: Time)
    requires 0 <= blockFor < INT_LIMIT
    ensures RetryWait(minWait, maxRetries, blockFor) ==
      if maxRetries > 0 && blockFor / maxRetries > minWait then blockFor / maxRetries else minWait
  {
    assert Wrap(blockFor) == blockFor;
    if maxRetries > 0 { QuotientBound(blockFor, maxRetries); }
  }

  lemma QuotientBound(n: nat, d: int)
    requires d > 0
    ensures 0 <= n / d <= n
  {
    MulAtLeast(n / d, d);
    assert n == n / d * d + n % d;
  }

  lemma {:induction false} MulAtLeast(q: nat, d: nat)
    requires d >= 1
    ensures q * d >= q
    decreases d
  {
    if d > 1 {
      MulAtLeast(q, d - 1);
      assert q * d == q * (d - 1) + q;
    }
  }

  /** The configured maximum number of retries bounds the number of waits exactly when the wait times
      that maximum covers the block time: an even share that was rounded down may allow one more. */
  lemma RetriesBoundedExactlyWhen(blockFor: Time, wait: Time, maxRetries: nat)
    requires blockFor > 0 && wait > 0
    ensures MaxSleeps(blockFor, wait) <= maxRetries <==> blockFor <= wait * maxRetries
  {
    var q := MaxSleeps(blockFor, wait);
    assert q * wait <= blockFor + wait - 1 < q * wait + wait;
    if q <= maxRetries {
      assert q * wait <= maxRetries * wait;
    } else {
      assert (maxRetries + 1) * wait <= q * wait;
      assert (maxRetries + 1) * wait == maxRetries * wait + wait;
    }
  }

  lemma RoundedShareAllowsOneMore()
    ensures RetryWait(1, 20, 3_000_000_001) == 150_000_000
    ensures MaxSleeps(3_000_000_001, 150_000_000) == 21
  {
    RetryWaitMeaning(1, 20, 3_000_000_001);
  }

  /** The server's clock: it never goes back, and a sleep takes at least as long as asked. */
  class Clock {
    var now: Time
    var readings: nat
    ghost var sleeps: nat

    /** How much time passes before the n-th reading or wake-up, beyond what was asked. */
    const drift: nat -> nat

    /** Nothing but the sleeps takes any time. */
    ghost predicate Exact() { forall n :: drift(n) == 0 }

    constructor (start: Time, drift: nat -> nat)
      ensures now == start && sleeps == 0 && this.drift == drift
    {
      now, readings, sleeps := start, 0, 0;
      this.drift := drift;
    }

    method GetUTC() returns (t: Time)
      modifies this
      ensures t == now && now >= old(now) && sleeps == old(sleeps)
      ensures Exact() ==> now == old(now)
    {
      now, readings := now + drift(readings), readings + 1;
      t := now;
    }

    method Sleep(d: Time)
      requires d >= 0
      modifies this
      ensures now >= old(now) + d && sleeps == old(sleeps) + 1
      ensures Exact() ==> now == old(now) + d
    {
      now, readings := now + d + drift(readings), readings + 1;
      sleeps := sleeps + 1;
    }
  }

  // ---- the outcome of attempts ----

  /** The hits whose write was accepted, in order, with their new versions. */
  function Won(hits: seq<Held>, replies: seq<Reply>): seq<Held>
    requires |hits| == |replies|
  {
    if hits == [] then []
    else
      var n := |hits| - 1;
      Won(hits[..n], replies[..n]) +
      if replies[n].Committed? then [Held(hits[n].task, replies[n].version)] else []
  }

  /** The positions of the accepted attempts. */
  function Accepted(replies: seq<Reply>): seq<nat> {
    if replies == [] then []
    else
      var n := |replies| - 1;
      Accepted(replies[..n]) + if replies[n].Committed? then [n] else []
  }

  lemma {:induction false} WonConcat(a: seq<Held>, ra: seq<Reply>, b: seq<Held>, rb: seq<Reply>)
    requires |a| == |ra| && |b| == |rb|
    ensures Won(a + b, ra + rb) == Won(a, ra) + Won(b, rb)
    decreases |b|
  {
    if b == [] {
      assert a + b == a && ra + rb == ra;
    } else {
      var n := |b| - 1;
      assert (a + b)[..|a| + n] == a + b[..n] && (ra + rb)[..|a| + n] == ra + rb[..n];
      WonConcat(a, ra, b[..n], rb[..n]);
    }
  }

  lemma {:induction false} AcceptedPositions(replies: seq<Reply>)
    ensures forall k :: 0 <= k < |Accepted(replies)| ==>
      Accepted(replies)[k] < |replies| && replies[Accepted(replies)[k]].Committed?
    ensures forall j, k :: 0 <= j < k < |Accepted(replies)| ==> Accepted(replies)[j] < Accepted(replies)[k]
    ensures forall i :: 0 <= i < |replies| && replies[i].Committed? ==> i in Accepted(replies)
  {
    if replies != [] {
      var n := |replies| - 1;
      var before := Accepted(replies[..n]);
      AcceptedPositions(replies[..n]);
      var after := if replies[n].Committed? then before + [n] else before;
      assert Accepted(replies) == after;
      hide Accepted;
      forall i | 0 <= i < |replies| && replies[i].Committed?
        ensures i in after
      {
        assert if i < n then replies[..n][i].Committed? && i in before else after[|before|] == n;
      }
      forall k | 0 <= k < |after|
        ensures after[k] < |replies| && replies[after[k]].Committed?
      {
        assert k < |before| ==> after[k] == before[k] && replies[before[k]] == replies[..n][before[k]];
      }
    }
  }

  /** The results are exactly the accepted hits, in search order, so a claim call keeps the priority
      order of its search. */
  lemma {:induction false} WonKeepsSearchOrder(hits: seq<Held>, replies: seq<Reply>)
    requires |hits| == |replies|
    ensures |Won(hits, replies)| == |Accepted(replies)| <= |hits|
    ensures forall k :: 0 <= k < |Accepted(replies)| ==>
      && Accepted(replies)[k] < |hits|
      && replies[Accepted(replies)[k]].Committed?
      && Won(hits, replies)[k] == Held(hits[Accepted(replies)[k]].task, replies[Accepted(replies)[k]].version)
  {
    if hits != [] {
      var n := |hits| - 1;
      AcceptedPositions(replies[..n]);
      WonKeepsSearchOrder(hits[..n], replies[..n]);
    }
  }

  /** after is before, claimed by the worker. */
  ghost predicate ClaimedFrom(before: Held, after: Held, worker: string, searchedAt: Time) {
    && after.version == before.version
    && after.task.lastClaimed.Some?
    && searchedAt <= after.task.lastClaimed.value.claimedAt
    && Apply(ClaimBy(worker, searchedAt, after.task.lastClaimed.value.claimedAt), before.task) == Success(after.task)
  }

  /** The claims are stamped with a reading of the clock between two moments. */
  ghost predicate ClaimedDuring(claims: seq<Held>, from: Time, to: Time) {
    forall i :: 0 <= i < |claims| ==>
      claims[i].task.lastClaimed.Some? && from <= claims[i].task.lastClaimed.value.claimedAt <= to
  }

  lemma StampedWith(s: TaskStore, claims: seq<Held>, op: Op)
    requires op.ClaimBy? && AllItemsOk(s, ClaimItems(claims, op))
    ensures ClaimedDuring(claims, op.at, op.at)
  {
    forall i | 0 <= i < |claims|
      ensures claims[i].task.lastClaimed.Some? && claims[i].task.lastClaimed.value.claimedAt == op.at
    {
      assert ItemOk(s, ClaimItems(claims, op)[i]);
      PersistThenReload(claims[i].task);
      PersistThenReload(Apply(op, TaskAt(s, claims[i].version)).value);
    }
  }

  ghost predicate AllClaimedFrom(before: seq<Held>, after: seq<Held>, worker: string, searchedAt: Time) {
    |before| == |after| && forall i :: 0 <= i < |after| ==> ClaimedFrom(before[i], after[i], worker, searchedAt)
  }

  /** A hit is a copy that was stored at some time and matched the search. */
  ghost predicate IsHit(s: TaskStore, hit: Held, searchedAt: Time) {
    && hit.version < |s.log|
    && hit.task == TaskAt(s, hit.version)
    && Claimable(s.log[hit.version].doc, searchedAt)
  }

  ghost predicate AllHits(s: TaskStore, hits: seq<Held>, searchedAt: Time) {
    forall i :: 0 <= i < |hits| ==> IsHit(s, hits[i], searchedAt)
  }

  lemma HitsStay(s: TaskStore, s': TaskStore, hits: seq<Held>, searchedAt: Time)
    requires AllHits(s, hits, searchedAt) && s.log <= s'.log
    ensures AllHits(s', hits, searchedAt)
  {
    forall i | 0 <= i < |hits|
      ensures IsHit(s', hits[i], searchedAt)
    {
      assert IsHit(s, hits[i], searchedAt);
      assert s'.log[hits[i].version] == s.log[hits[i].version];
    }
  }

  /** The result is stored at the returned version, as a claim by the worker. */
  ghost predicate IsStoredClaim(s: TaskStore, c: Held, worker: string) {
    && c.version < |s.log|
    && s.log[c.version].doc == ToPersistedTask(c.task)
    && s.log[c.version].cause.By? && s.log[c.version].cause.op.ClaimBy?
    && s.log[c.version].cause.op.worker == worker
  }

  ghost predicate AllStoredClaims(s: TaskStore, claims: seq<Held>, worker: string) {
    forall i :: 0 <= i < |claims| ==> IsStoredClaim(s, claims[i], worker)
  }

  lemma ClaimsStay(s: TaskStore, s': TaskStore, claims: seq<Held>, worker: string)
    requires AllStoredClaims(s, claims, worker) && s.log <= s'.log
    ensures AllStoredClaims(s', claims, worker)
  {
    forall i | 0 <= i < |claims|
      ensures IsStoredClaim(s', claims[i], worker)
    {
      assert IsStoredClaim(s, claims[i], worker);
      assert s'.log[claims[i].version] == s.log[claims[i].version];
    }
  }

  lemma ClaimsConcat(s: TaskStore, a: seq<Held>, b: seq<Held>, worker: string)
    requires AllStoredClaims(s, a, worker) && AllStoredClaims(s, b, worker)
    ensures AllStoredClaims(s, a + b, worker)
  {
  }

  lemma NothingTried(s: TaskStore, worker: string, found: seq<Held>, searchedAt: Time)
    ensures AllStoredClaims(s, [], worker) && AttemptsOn([], []) && WindowOk(Window(found, searchedAt, [], []), worker)
  {
  }

  function Versions(held: seq<Held>): seq<Version> {
    seq(|held|, i requires 0 <= i < |held| => held[i].version)
  }

  lemma VersionsConcat(a: seq<Held>, b: seq<Held>)
    ensures Versions(a + b) == Versions(a) + Versions(b)
  {
  }

  lemma {:induction false} WonVersions(hits: seq<Held>, replies: seq<Reply>)
    requires |hits| == |replies|
    ensures Versions(Won(hits, replies)) == AcceptedVersions(replies)
  {
    if hits != [] {
      var n := |hits| - 1;
      WonVersions(hits[..n], replies[..n]);
      VersionsConcat(Won(hits[..n], replies[..n]),
          if replies[n].Committed? then [Held(hits[n].task, replies[n].version)] else []);
    }
  }

  /** Each version is that of a claim by the worker. */
  ghost predicate ClaimsOf(s: TaskStore, versions: seq<Version>, worker: string) {
    forall v :: v in versions ==>
      v < |s.log| && s.log[v].cause.By? && s.log[v].cause.op.ClaimBy? && s.log[v].cause.op.worker == worker
  }

  /** What a claim call does to the versions accepted from this server: it adds claims by the worker, and if
      it succeeds it returns exactly those, in the order in which they were stored. */
  ghost predicate ReturnsAccepted(s: TaskStore, before: seq<Version>, after: seq<Version>, worker: string,
                                  r: Result<seq<Held>, ServiceError>)
  {
    && before <= after
    && ClaimsOf(s, after[|before|..], worker)
    && (r.Success? ==> after == before + Versions(r.value))
  }

  lemma NothingReturned(s: TaskStore, accepted: seq<Version>, worker: string)
    ensures ReturnsAccepted(s, accepted, accepted, worker, Success([]))
  {
  }

  /** One part of a call after another. */
  lemma ReturnsMore(s: TaskStore, s': TaskStore, a: seq<Version>, b: seq<Version>, c: seq<Version>, worker: string,
                    first: seq<Held>, second: Result<seq<Held>, ServiceError>)
    requires ReturnsAccepted(s, a, b, worker, Success(first)) && ReturnsAccepted(s', b, c, worker, second)
    requires s.log <= s'.log
    ensures ReturnsAccepted(s', a, c, worker,
                            match second case Success(held) => Success(first + held) case Failure(e) => Failure(e))
  {
    assert c[|a|..] == b[|a|..] + c[|b|..];
    if second.Success? { VersionsConcat(first, second.value); }
  }

  /** So what it returns carries increasing versions: no claim is returned twice. */
  lemma ReturnedInOrder(s: TaskStore, before: seq<Version>, after: seq<Version>, worker: string, held: seq<Held>)
    requires Rising(after, |s.log|) && ReturnsAccepted(s, before, after, worker, Success(held))
    ensures forall i, j :: 0 <= i < j < |held| ==> held[i].version < held[j].version
  {
    forall i, j | 0 <= i < j < |held|
      ensures held[i].version < held[j].version
    {
      assert after[|before| + i] == held[i].version && after[|before| + j] == held[j].version;
    }
  }

  lemma ItemsAreClaims(s: TaskStore, versions: seq<Version>, items: seq<BulkItem>, op: Op)
    requires WrittenBy(s, versions, items) && op.ClaimBy? && forall i :: 0 <= i < |items| ==> items[i].op == op
    ensures ClaimsOf(s, versions, op.worker)
  {
  }

  /** The hit is a live copy. */
  predicate LiveHit(s: TaskStore, hit: Held) { Holds(s, Key(hit.task.queue, hit.task.id), hit.version) }

  /** One of the claims took that version. */
  ghost predicate Taken(s: TaskStore, claims: seq<Held>, v: Version) {
    exists i :: 0 <= i < |claims| && claims[i].version < |s.log| && s.log[claims[i].version].replaced == Some(v)
  }

  lemma StaysTaken(s: TaskStore, s': TaskStore, claims: seq<Held>, more: seq<Held>, v: Version)
    requires Taken(s, claims, v) && s.log <= s'.log
    ensures Taken(s', claims + more, v)
  {
    var i :| 0 <= i < |claims| && claims[i].version < |s.log| && s.log[claims[i].version].replaced == Some(v);
    assert (claims + more)[i] == claims[i] && s'.log[claims[i].version] == s.log[claims[i].version];
  }

  lemma TakenLater(s: TaskStore, claims: seq<Held>, more: seq<Held>, v: Version)
    requires Taken(s, more, v)
    ensures Taken(s, claims + more, v)
  {
    var i :| 0 <= i < |more| && more[i].version < |s.log| && s.log[more[i].version].replaced == Some(v);
    assert (claims + more)[|claims| + i] == more[i];
  }

  /** Every hit that was live at first has been taken. */
  ghost predicate AllTaken(s0: TaskStore, found: seq<Held>, s: TaskStore, claims: seq<Held>) {
    forall k :: 0 <= k < |found| && LiveHit(s0, found[k]) ==> Taken(s, claims, found[k].version)
  }

  lemma AllStayTaken(s0: TaskStore, found: seq<Held>, s: TaskStore, s': TaskStore, claims: seq<Held>, more: seq<Held>)
    requires AllTaken(s0, found, s, claims) && s.log <= s'.log
    ensures AllTaken(s0, found, s', claims + more)
  {
    forall k | 0 <= k < |found| && LiveHit(s0, found[k])
      ensures Taken(s', claims + more, found[k].version)
    {
      StaysTaken(s, s', claims, more, found[k].version);
    }
  }

  /** Every copy that was offered, due and live has been claimed. */
  ghost predicate AllDueTaken(s0: TaskStore, candidates: seq<Version>, now: Time, s: TaskStore, claims: seq<Held>) {
    forall v :: v in candidates && Due(s0, v, now) && Holds(s0, s0.log[v].key, v) ==> Taken(s, claims, v)
  }

  /** If every live hit of a search that may return all it is offered is taken, so is every live copy that is due. */
  lemma {:induction false} OfferedIsTaken(w: World, candidates: seq<Version>, now: Time, limit: nat, s: TaskStore,
                                          claims: seq<Held>)
    requires Inv(w)
    ensures |HeldHits(w.store, candidates, now, limit)| <= |candidates|
    ensures |candidates| <= limit && AllTaken(w.store, HeldHits(w.store, candidates, now, limit), s, claims) ==>
              AllDueTaken(w.store, candidates, now, s, claims)
    ensures |candidates| <= limit && HeldHits(w.store, candidates, now, limit) == [] ==>
              AllDueTaken(w.store, candidates, now, s, claims)
  {
    hide HeldHits, Taken, Valid;
    NoMoreThanOffered(w.store, candidates, now, limit);
    if |candidates| <= limit {
      forall v | v in candidates && Due(w.store, v, now)
        ensures Held(TaskAt(w.store, v), v) in HeldHits(w.store, candidates, now, limit)
        ensures Key(TaskAt(w.store, v).queue, TaskAt(w.store, v).id) == w.store.log[v].key
      {
        SearchReturnsAllDue(w.store, candidates, now, limit, v);
        assert EntryOk(w.store, v);
      }
    }
  }

  /** What was accepted is among what is won. */
  lemma {:induction false} AcceptedIsWon(hits: seq<Held>, replies: seq<Reply>, k: nat)
    requires |hits| == |replies| && k < |hits| && replies[k].Committed?
    ensures Held(hits[k].task, replies[k].version) in Won(hits, replies)
  {
    if k < |hits| - 1 { AcceptedIsWon(hits[..|hits| - 1], replies[..|hits| - 1], k); }
  }

  lemma {:induction false} FirstFor(items: seq<BulkItem>, k: nat) returns (first: nat)
    requires k < |items|
    ensures first <= k && items[first].held.version == items[k].held.version
    ensures NewAfter(items, first, items[k].held.version)
  {
    if j :| 0 <= j < k && items[j].held.version == items[k].held.version {
      first := FirstFor(items, j);
    } else {
      first := k;
    }
  }

  /** If the first use of each live version is accepted, every live hit is taken. */
  lemma {:induction false} FirstsTakeAll(s0: TaskStore, s: TaskStore, was: seq<Held>, hits: seq<Held>, op: Op,
                                         replies: seq<Reply>)
    requires op.ClaimBy? && AllClaimedFrom(was, hits, op.worker, op.searchedAt) && |replies| == |hits|
    requires AllHits(s0, was, op.searchedAt) && FirstsAccepted(s0, ClaimItems(hits, op), replies)
    requires forall i :: 0 <= i < |hits| ==> ItemCommitted(s, ClaimItems(hits, op)[i], replies[i])
    ensures AllTaken(s0, was, s, Won(hits, replies))
  {
    hide Won;
    var items := ClaimItems(hits, op);
    forall k | 0 <= k < |was| && LiveHit(s0, was[k])
      ensures Taken(s, Won(hits, replies), was[k].version)
    {
      var first := FirstFor(items, k);
      SameKey(s0, was, hits, op, k, first);
      assert ItemCommitted(s, items[first], replies[first]);
      AcceptedIsWon(hits, replies, first);
      var i :| 0 <= i < |Won(hits, replies)| && Won(hits, replies)[i] == Held(hits[first].task, replies[first].version);
    }
  }

  /** Nothing but the window's own versions has been taken. */
  ghost predicate OthersStay(s0: TaskStore, s: TaskStore, window: seq<Held>) {
    forall k, v :: Holds(s0, k, v) && (forall j :: 0 <= j < |window| ==> window[j].version != v) ==> Holds(s, k, v)
  }

  lemma ItemsLeaveOthers(s0: TaskStore, s: TaskStore, was: seq<Held>, hits: seq<Held>, op: Op)
    requires op.ClaimBy? && AllClaimedFrom(was, hits, op.worker, op.searchedAt)
    requires StillLive(s0, s, ClaimItems(hits, op), |hits|)
    ensures OthersStay(s0, s, was)
  {
    var items := ClaimItems(hits, op);
    forall k, v | Holds(s0, k, v) && forall j :: 0 <= j < |was| ==> was[j].version != v
      ensures Holds(s, k, v)
    {
      forall j | 0 <= j < |items|
        ensures items[j].held.version != v
      {
        assert ClaimedFrom(was[j], hits[j], op.worker, op.searchedAt);
      }
      assert NewAfter(items, |hits|, v);
    }
  }

  /** A version belongs to one key, so an earlier item for it is live as well. */
  lemma SameKey(s0: TaskStore, was: seq<Held>, hits: seq<Held>, op: Op, k: nat, first: nat)
    requires op.ClaimBy? && AllClaimedFrom(was, hits, op.worker, op.searchedAt) && first <= k < |was|
    requires AllHits(s0, was, op.searchedAt) && hits[first].version == hits[k].version && LiveHit(s0, was[k])
    ensures LiveItem(s0, ClaimItems(hits, op)[first])
  {
    assert ClaimedFrom(was[k], hits[k], op.worker, op.searchedAt);
    assert ClaimedFrom(was[first], hits[first], op.worker, op.searchedAt);
    assert IsHit(s0, was[k], op.searchedAt) && IsHit(s0, was[first], op.searchedAt);
  }

  ghost function ClaimItems(hits: seq<Held>, op: Op): seq<BulkItem> {
    seq(|hits|, i requires 0 <= i < |hits| => BulkItem(hits[i], op))
  }

  lemma {:induction false} WonAreStoredClaims(s: TaskStore, hits: seq<Held>, replies: seq<Reply>, op: Op)
    requires |hits| == |replies| && op.ClaimBy?
    requires forall i :: 0 <= i < |hits| ==> ItemCommitted(s, BulkItem(hits[i], op), replies[i])
    ensures AllStoredClaims(s, Won(hits, replies), op.worker)
  {
    if hits != [] {
      var n := |hits| - 1;
      forall i | 0 <= i < n
        ensures ItemCommitted(s, BulkItem(hits[..n][i], op), replies[..n][i])
      {
        assert ItemCommitted(s, BulkItem(hits[i], op), replies[i]);
      }
      WonAreStoredClaims(s, hits[..n], replies[..n], op);
      assert ItemCommitted(s, BulkItem(hits[n], op), replies[n]);
    }
  }

  /** What the outside world does around the searches and the bulk requests of the claim calls. */
  datatype Surroundings = Surroundings(
    candidates: nat -> seq<Version>,
    searchFails: nat -> bool,
    othersBeforeSearch: nat -> seq<Action>,
    bulk: nat -> BulkPlan)

  function HeldHits(s: TaskStore, candidates: seq<Version>, now: Time, limit: nat): seq<Held> {
    if candidates == [] || limit == 0 then []
    else if candidates[0] < |s.log| && Claimable(s.log[candidates[0]].doc, now) then
      [Held(TaskAt(s, candidates[0]), candidates[0])] + HeldHits(s, candidates[1..], now, limit - 1)
    else HeldHits(s, candidates[1..], now, limit)
  }

  /** What a claim may take: a copy that is queued or has failed, is due, and has an attempt left. */
  ghost predicate Due(s: TaskStore, v: Version, now: Time) {
    && v < |s.log|
    && s.log[v].doc.state in {QUEUED, FAILED}
    && s.log[v].doc.runAt <= now
    && s.log[v].doc.remainingAttempts > 0
  }

  /** In the task's own terms: what is queued or failed and due, unless its retry count leaves no room. */
  lemma DueExactlyWhen(w: World, v: Version, now: Time)
    requires Inv(w) && v < |w.store.log|
    ensures Due(w.store, v, now) <==>
            var t := TaskAt(w.store, v); t.state in {QUEUED, FAILED} && t.runAt <= now && HasRoom(t.retryTimes)
  {
    assert EntryOk(w.store, v);
    FilterHidesNoLiveTask(w.store.log[v].doc, now);
  }

  lemma {:induction false} HeldHitsAreHits(s: TaskStore, candidates: seq<Version>, now: Time, limit: nat)
    ensures AllHits(s, HeldHits(s, candidates, now, limit), now)
    ensures |HeldHits(s, candidates, now, limit)| <= limit
    decreases candidates
  {
    if candidates != [] && limit > 0 {
      var rest := if candidates[0] < |s.log| && Claimable(s.log[candidates[0]].doc, now) then limit - 1 else limit;
      HeldHitsAreHits(s, candidates[1..], now, rest);
      var hits := HeldHits(s, candidates, now, limit);
      forall i | 0 <= i < |hits|
        ensures IsHit(s, hits[i], now)
      {
        if rest == limit {
          assert IsHit(s, HeldHits(s, candidates[1..], now, rest)[i], now);
        } else if i > 0 {
          assert IsHit(s, HeldHits(s, candidates[1..], now, rest)[i - 1], now);
        }
      }
    }
  }

  /** A search hides nothing: it returns the copies, as stored, of those of its candidates that are due and of
      no others, and of all of them if it returns fewer than it may. */
  lemma {:induction false} SearchExactly(s: TaskStore, candidates: seq<Version>, now: Time, limit: nat, v: Version)
    ensures var hits := HeldHits(s, candidates, now, limit);
      && (forall i :: 0 <= i < |hits| ==>
            Due(s, hits[i].version, now) && hits[i].task == TaskAt(s, hits[i].version) && hits[i].version in candidates)
      && (v in candidates && Due(s, v, now) && |hits| < limit ==> Held(TaskAt(s, v), v) in hits)
    decreases candidates
  {
    if candidates != [] && limit > 0 {
      var found := candidates[0] < |s.log| && Claimable(s.log[candidates[0]].doc, now);
      SearchExactly(s, candidates[1..], now, if found then limit - 1 else limit, v);
    }
  }

  /** It looks at its candidates in order, and stops when it has as many as it may return. */
  lemma {:induction false} SearchInOrder(s: TaskStore, a: seq<Version>, b: seq<Version>, now: Time, limit: nat)
    ensures |HeldHits(s, a, now, limit)| <= limit
    ensures HeldHits(s, a + b, now, limit) ==
            HeldHits(s, a, now, limit) + HeldHits(s, b, now, limit - |HeldHits(s, a, now, limit)|)
    decreases a
  {
    HeldHitsAreHits(s, a, now, limit);
    if a == [] {
      assert a + b == b;
    } else if limit > 0 {
      assert (a + b)[1..] == a[1..] + b;
      var found := a[0] < |s.log| && Claimable(s.log[a[0]].doc, now);
      SearchInOrder(s, a[1..], b, now, if found then limit - 1 else limit);
    } else {
      assert HeldHits(s, b, now, 0) == [];
    }
  }

  /** So a search that may return as many as it is offered returns all of them that are due. */
  lemma {:induction false} SearchReturnsAllDue(s: TaskStore, candidates: seq<Version>, now: Time, limit: nat,
                                               v: Version)
    requires |candidates| <= limit && v in candidates && Due(s, v, now)
    ensures Held(TaskAt(s, v), v) in HeldHits(s, candidates, now, limit)
  {
    NoMoreThanOffered(s, candidates, now, limit + 1);
    SearchExactly(s, candidates, now, limit + 1, v);
    MoreRoomChangesNothing(s, candidates, now, limit);
  }

  lemma {:induction false} NoMoreThanOffered(s: TaskStore, candidates: seq<Version>, now: Time, limit: nat)
    ensures |HeldHits(s, candidates, now, limit)| <= |candidates|
    decreases candidates
  {
    if candidates != [] && limit > 0 {
      var found := candidates[0] < |s.log| && Claimable(s.log[candidates[0]].doc, now);
      NoMoreThanOffered(s, candidates[1..], now, if found then limit - 1 else limit);
    }
  }

  lemma {:induction false} MoreRoomChangesNothing(s: TaskStore, candidates: seq<Version>, now: Time, limit: nat)
    requires |candidates| <= limit
    ensures HeldHits(s, candidates, now, limit + 1) == HeldHits(s, candidates, now, limit)
    decreases candidates
  {
    if candidates != [] {
      var found := candidates[0] < |s.log| && Claimable(s.log[candidates[0]].doc, now);
      MoreRoomChangesNothing(s, candidates[1..], now, if found then limit - 1 else limit);
    }
  }

  ghost predicate AllItemsOk(s: TaskStore, items: seq<BulkItem>) {
    forall i :: 0 <= i < |items| ==> ItemOk(s, items[i])
  }

  lemma NothingClaimed(s: TaskStore, op: Op)
    requires op.ClaimBy?
    ensures AllClaimedFrom([], [], op.worker, op.searchedAt) && AllItemsOk(s, []) && ClaimItems([], op) == []
  {
  }

  lemma HitCanBeClaimed(s: TaskStore, hits: seq<Held>, k: nat, op: Op)
    requires op.ClaimBy? && k < |hits| && AllHits(s, hits, op.searchedAt)
    ensures IntoClaimed(hits[k].task, op.worker, op.at).Success?
  {
    assert IsHit(s, hits[k], op.searchedAt);
  }

  /** Claiming a search hit makes a copy that can be sent. */
  lemma ClaimOne(w: World, hits: seq<Held>, k: nat, claimed: Held, op: Op)
    requires Inv(w) && op.ClaimBy? && op.searchedAt <= op.at
    requires k < |hits| && AllHits(w.store, hits, op.searchedAt)
    requires IntoClaimed(hits[k].task, op.worker, op.at).Success?
    requires claimed == Held(IntoClaimed(hits[k].task, op.worker, op.at).value.(modifiedAt := op.at), hits[k].version)
    ensures ClaimedFrom(hits[k], claimed, op.worker, op.searchedAt)
    ensures ItemOk(w.store, BulkItem(claimed, op))
  {
    hide Inv, ItemOk;
    assert IsHit(w.store, hits[k], op.searchedAt);
    EligibleItemOk(w, hits[k].version, BulkItem(claimed, op));
  }

  lemma OneMoreClaimed(s: TaskStore, before: seq<Held>, after: seq<Held>, hit: Held, claimed: Held, op: Op)
    requires op.ClaimBy? && AllClaimedFrom(before, after, op.worker, op.searchedAt)
               && AllItemsOk(s, ClaimItems(after, op))
    requires ClaimedFrom(hit, claimed, op.worker, op.searchedAt) && ItemOk(s, BulkItem(claimed, op))
    ensures AllClaimedFrom(before + [hit], after + [claimed], op.worker, op.searchedAt)
    ensures ClaimItems(after + [claimed], op) == ClaimItems(after, op) + [BulkItem(claimed, op)]
    ensures AllItemsOk(s, ClaimItems(after, op) + [BulkItem(claimed, op)])
  {
    hide ClaimedFrom, ItemOk;
  }

  /** One attempt per hit, in order. */
  ghost predicate AttemptsOn(sent: seq<Action>, hits: seq<Held>) {
    && |sent| == |hits|
    && forall i :: 0 <= i < |sent| ==> sent[i].Attempt? && sent[i].op.ClaimBy? && sent[i].version == hits[i].version
  }

  lemma AttemptsConcat(sent: seq<Action>, hits: seq<Held>, more: seq<Action>, part: seq<Held>)
    requires AttemptsOn(sent, hits) && AttemptsOn(more, part)
    ensures AttemptsOn(sent + more, hits + part)
  {
  }

  lemma HitsInWindow(s: TaskStore, found: seq<Held>, searchedAt: Time, lo: nat, hi: nat)
    requires lo <= hi <= |found| && AllHits(s, found, searchedAt)
    ensures AllHits(s, found[lo..hi], searchedAt)
  {
  }

  /** One search and what became of its hits: the first |attempted| of them were tried, each once. */
  datatype Window = Window(found: seq<Held>, searchedAt: Time, attempted: seq<Held>, replies: seq<Reply>)

  ghost predicate WindowOk(w: Window, worker: string) {
    && |w.attempted| == |w.replies| <= |w.found|
    && forall i :: 0 <= i < |w.attempted| ==> ClaimedFrom(w.found[i], w.attempted[i], worker, w.searchedAt)
  }

  lemma ExtendWindow(w: Window, worker: string, was: seq<Held>, part: seq<Held>, replies: seq<Reply>)
    requires WindowOk(w, worker) && |part| == |replies| && AllClaimedFrom(was, part, worker, w.searchedAt)
    requires |w.attempted| + |part| <= |w.found| && was == w.found[|w.attempted|..|w.attempted| + |part|]
    ensures WindowOk(w.(attempted := w.attempted + part, replies := w.replies + replies), worker)
  {
    var w' := w.(attempted := w.attempted + part, replies := w.replies + replies);
    forall i | 0 <= i < |w'.attempted|
      ensures ClaimedFrom(w'.found[i], w'.attempted[i], worker, w'.searchedAt)
    {
      if i >= |w.attempted| {
        var k := i - |w.attempted|;
        assert ClaimedFrom(was[k], part[k], worker, w.searchedAt);
      }
    }
  }

  /** Sequences that agree from start on agree on the window and after it. */
  lemma SameSlices(a: seq<Held>, b: seq<Held>, start: nat, end: nat)
    requires start <= end <= |a| == |b| && a[start..] == b[start..]
    ensures a[start..end] == b[start..end] && a[end..] == b[end..]
  {
    assert a[start..end] == a[start..][..end - start] && b[start..end] == b[start..][..end - start];
    assert a[end..] == a[start..][end - start..] && b[end..] == b[start..][end - start..];
  }

  /** What was live at first has been claimed, or its turn is still to come and it still is live. */
  ghost predicate LiveOrTaken(s0: TaskStore, found: seq<Held>, s: TaskStore, claimed: seq<Held>, start: nat) {
    forall k :: 0 <= k < |found| && LiveHit(s0, found[k]) ==>
      Taken(s, claimed, found[k].version) || (start <= k && LiveHit(s, found[k]))
  }

  lemma LiveAtFirst(s: TaskStore, found: seq<Held>)
    ensures LiveOrTaken(s, found, s, [], 0)
  {
  }

  lemma LiveAfterWindow(s0: TaskStore, found: seq<Held>, searchedAt: Time, s: TaskStore, s': TaskStore,
                        claimed: seq<Held>, claims: seq<Held>, start: nat, end: nat, next: nat)
    requires LiveOrTaken(s0, found, s, claimed, start) && AllHits(s, found, searchedAt) && s.log <= s'.log
    requires start <= end <= |found| && (next == end || (end == |found| && next >= end))
    requires AllTaken(s, found[start..end], s', claims) && OthersStay(s, s', found[start..end])
    ensures LiveOrTaken(s0, found, s', claimed + claims, next)
  {
    hide Taken;
    var window := found[start..end];
    forall k | 0 <= k < |found| && LiveHit(s0, found[k])
      ensures Taken(s', claimed + claims, found[k].version) || (next <= k && LiveHit(s', found[k]))
    {
      assert start <= k < end ==> window[k - start] == found[k];
      if Taken(s, claimed, found[k].version) {
        StaysTaken(s, s', claimed, claims, found[k].version);
      } else if j :| 0 <= j < |window| && window[j].version == found[k].version {
        assert IsHit(s, found[k], searchedAt) && IsHit(s, found[start + j], searchedAt);
        assert window[j] == found[start + j] == found[k];
        TakenLater(s', claimed, claims, found[k].version);
      }
    }
  }

  lemma NoneLeft(s0: TaskStore, found: seq<Held>, s: TaskStore, claimed: seq<Held>, start: nat)
    requires LiveOrTaken(s0, found, s, claimed, start) && start >= |found|
    ensures AllTaken(s0, found, s, claimed)
  {
  }

  lemma {:induction false} WonAtMost(hits: seq<Held>, replies: seq<Reply>)
    requires |hits| == |replies|
    ensures |Won(hits, replies)| <= |hits|
  {
    WonKeepsSearchOrder(hits, replies);
  }

  lemma WonNothing()
    ensures Won([], []) == []
  {
  }

  /** Since startedAt the clock has slept often enough to account for the time that has passed, and no
      oftener than blockFor allows. */
  ghost predicate SleptWithin(clock: Clock, sleeps0: nat, startedAt: Time, blockFor: Time, wait: Time)
    requires wait > 0
    reads clock
  {
    && sleeps0 <= clock.sleeps
    && startedAt <= clock.now
    && (clock.sleeps - sleeps0) * wait <= clock.now - startedAt
    && clock.sleeps - sleeps0 <= MaxSleeps(blockFor, wait)
  }

  /** And exactly the sleeps account for it. */
  ghost predicate OnTime(clock: Clock, sleeps0: nat, startedAt: Time, wait: Time)
    reads clock
  {
    sleeps0 <= clock.sleeps && clock.now == startedAt + (clock.sleeps - sleeps0) * wait
  }

  lemma SleepsCover(sleeps: nat, blockFor: Time, wait: Time)
    requires wait > 0 && 0 < blockFor <= sleeps * wait && sleeps <= MaxSleeps(blockFor, wait)
    ensures sleeps == MaxSleeps(blockFor, wait)
  {
    var q := MaxSleeps(blockFor, wait);
    assert q * wait <= blockFor + wait - 1;
    if sleeps < q {
      AtLeastOneLess(sleeps, q, wait);
      assert false;
    }
  }

  lemma NoSleepYet(clock: Clock, blockFor: Time, wait: Time)
    requires wait > 0
    ensures SleptWithin(clock, clock.sleeps, clock.now, blockFor, wait)
    ensures OnTime(clock, clock.sleeps, clock.now, wait)
  {
  }

  lemma SleptAtMost(clock: Clock, sleeps0: nat, startedAt: Time, blockFor: Time, wait: Time)
    requires wait > 0 && SleptWithin(clock, sleeps0, startedAt, blockFor, wait)
    ensures 0 <= clock.sleeps - sleeps0 <= MaxSleeps(blockFor, wait) && startedAt <= clock.now
  {
  }

  lemma SleptExactly(clock: Clock, sleeps0: nat, startedAt: Time, blockFor: Time, wait: Time)
    requires wait > 0 && OnTime(clock, sleeps0, startedAt, wait)
    ensures clock.now - startedAt == (clock.sleeps - sleeps0) * wait
  {
  }

  lemma AtLeastOneLess(a: nat, b: nat, wait: nat)
    requires a < b
    ensures a * wait + wait <= b * wait
  {
    assert (b - a - 1) * wait >= 0;
    assert b * wait == (b - a - 1) * wait + a * wait + wait;
  }

  class Claimer {
    const cluster: Cluster
    const clock: Clock
    const minWait: Time
    const maxRetries: Uint
    const searchMultiplier: Uint
    const around: Surroundings
    var searches: nat
    var bulks: nat

    constructor (cluster: Cluster, clock: Clock, minWait: Time, maxRetries: Uint, searchMultiplier: Uint,
                 around: Surroundings)
      requires cluster.Valid()
      ensures Valid() && this.cluster == cluster && this.clock == clock && searches == 0
    {
      this.cluster, this.clock, this.minWait, this.maxRetries := cluster, clock, minWait, maxRetries;
      this.searchMultiplier, this.around := searchMultiplier, around;
      searches, bulks := 0, 0;
    }

    ghost predicate Valid()
      reads this, cluster
    {
      cluster.Valid()
    }

    /** More is searched for than is wanted, in a uint. */
    function SearchLimit(desired: nat): Uint { Wrap(searchMultiplier * desired) }

    /** The product does not wrap around, and so many candidates are no more than one search may return. */
    predicate FitsSearch(offered: nat, desired: nat) { offered <= searchMultiplier * desired < UINT_SIZE }

    lemma FitsMeans(offered: nat, desired: nat)
      ensures FitsSearch(offered, desired) ==> offered <= SearchLimit(desired)
    {
    }

    lemma ValidMeans()
      requires Valid()
      ensures Inv(cluster.world) && Rising(cluster.accepted, |cluster.world.store.log|)
    {
    }

    /** Nobody else acts, and every request is served and answered. */
    ghost predicate Calm() {
      forall n :: around.othersBeforeSearch(n) == [] && !around.searchFails(n) && Undisturbed(around.bulk(n))
    }

    /** What the next search returns, if it is made at once. */
    ghost function NextFind(limit: nat): seq<Held>
      reads this, cluster, clock
    {
      HeldHits(cluster.world.store, around.candidates(searches), clock.now, limit)
    }

    /** There is nothing to claim, no search fails, and nothing but the waits takes any time. */
    ghost predicate NothingToClaim() {
      clock.Exact() && forall n :: around.candidates(n) == [] && !around.searchFails(n)
    }

    /** searchForClaimables: the clock is read, then the store searched; the copies returned may be stale. */
    method SearchForClaimables(limit: nat) returns (r: Result<array<Held>, ServiceError>, searchedAt: Time)
      requires Valid()
      modifies this`searches, cluster, clock
      ensures Valid() && searches == old(searches) + 1
      ensures clock.now >= old(clock.now) && clock.sleeps == old(clock.sleeps)
      ensures cluster.mine == old(cluster.mine) && old(cluster.world).store.log <= cluster.world.store.log
      ensures cluster.accepted == old(cluster.accepted)
      ensures r.Success? ==>
        && fresh(r.value) && r.value.Length <= limit
        && AllHits(cluster.world.store, r.value[..], searchedAt)
        && r.value[..] == HeldHits(cluster.world.store, around.candidates(old(searches)), searchedAt, limit)
      ensures NothingToClaim() ==> r.Success? && r.value.Length == 0 && clock.now == old(clock.now)
      ensures Calm() ==> r.Success? && cluster.world == old(cluster.world)
      ensures searchedAt == clock.now && (clock.Exact() ==> clock.now == old(clock.now))
    {
      hide Run, Step, Inv;
      if Calm() {
        assert around.othersBeforeSearch(searches) == [];
        RunNothing(cluster.world);
      }
      cluster.Interfere(around.othersBeforeSearch(searches));
      searchedAt := clock.GetUTC();
      var n := searches;
      searches := searches + 1;
      if around.searchFails(n) { return Failure(StoreError), searchedAt; }
      var found := HeldHits(cluster.world.store, around.candidates(n), searchedAt, limit);
      HeldHitsAreHits(cluster.world.store, around.candidates(n), searchedAt, limit);
      var hits := new Held[|found|](i requires 0 <= i < |found| => found[i]);
      assert hits[..] == found;
      r := Success(hits);
    }

    /** The first loop of makeClaim: every element of the window is claimed in place. IntoClaimed never
        refuses a hit of the search, so the error return that follows it is dead code. */
    method ClaimInPlace(op: Op, hits: array<Held>, lo: nat, hi: nat) returns (items: seq<BulkItem>)
      requires Valid() && lo <= hi <= hits.Length && op.ClaimBy? && op.searchedAt <= op.at
      requires AllHits(cluster.world.store, hits[lo..hi], op.searchedAt)
      modifies hits
      ensures hits[..lo] == old(hits[..lo]) && hits[hi..] == old(hits[hi..])
      ensures items == ClaimItems(hits[lo..hi], op)
      ensures AllClaimedFrom(old(hits[lo..hi]), hits[lo..hi], op.worker, op.searchedAt)
      ensures AllItemsOk(cluster.world.store, items)
    {
      hide Run, Step, Inv, ItemOk, AllItemsOk, AllClaimedFrom, AllHits, Tasks.IntoClaimed;
      ghost var found, store := hits[..], cluster.world.store;
      items := [];
      var i := lo;
      NothingClaimed(store, op);
      assert hits[lo..lo] == [];
      while i < hi
        invariant lo <= i <= hi
        invariant hits[..lo] == found[..lo] && hits[i..] == found[i..]
        invariant AllClaimedFrom(found[lo..i], hits[lo..i], op.worker, op.searchedAt)
        invariant items == ClaimItems(hits[lo..i], op) && AllItemsOk(store, items)
        modifies hits
      {
        assert hits[i] == hits[i..][0] == found[i..][0] == found[i];
        assert found[i] == found[lo..hi][i - lo];
        HitCanBeClaimed(store, found[lo..hi], i - lo, op);
        match IntoClaimed(hits[i].task, op.worker, op.at) {
          case Failure(_) => assert false;
          case Success(t) =>
            ghost var front := hits[lo..i];
            hits[i] := Held(t.(modifiedAt := op.at), hits[i].version);
            items := items + [BulkItem(hits[i], op)];
            ClaimOne(cluster.world, found[lo..hi], i - lo, hits[i], op);
            assert hits[lo..i] == front && hits[lo..i + 1] == front + [hits[i]];
            assert found[lo..i + 1] == found[lo..i] + [found[i]];
            OneMoreClaimed(store, found[lo..i], front, found[i], hits[i], op);
        }
        i := i + 1;
      }
      assert found[lo..hi] == old(hits[lo..hi]);
    }

    /** The second loop: keep what the store accepted. */
    method KeepAccepted(attempted: seq<Held>, replies: seq<Reply>) returns (claimed: seq<Held>)
      requires |attempted| == |replies|
      ensures claimed == Won(attempted, replies)
    {
      claimed := [];
      var idx := 0;
      while idx < |replies|
        invariant 0 <= idx <= |replies|
        invariant claimed == Won(attempted[..idx], replies[..idx])
      {
        assert attempted[..idx + 1][..idx] == attempted[..idx] && replies[..idx + 1][..idx] == replies[..idx];
        if replies[idx].Committed? {
          claimed := claimed + [Held(attempted[idx].task, replies[idx].version)];
        }
        idx := idx + 1;
      }
      assert attempted[..idx] == attempted && replies[..idx] == replies;
    }

    /** makeClaim on the window hits[lo..hi]: the window is claimed in place and sent, and the tasks whose
        write was accepted are returned. */
    method MakeClaim(worker: string, hits: array<Held>, lo: nat, hi: nat, searchedAt: Time)
      returns (r: Result<seq<Held>, ServiceError>, ghost replies: seq<Reply>, ghost sent: seq<Action>)
      requires Valid() && lo <= hi <= hits.Length && searchedAt <= clock.now
      requires AllHits(cluster.world.store, hits[lo..hi], searchedAt)
      modifies this`bulks, cluster, clock, hits
      ensures Valid() && clock.now >= old(clock.now) && clock.sleeps == old(clock.sleeps)
      ensures old(cluster.world).store.log <= cluster.world.store.log
      ensures hits[..lo] == old(hits[..lo]) && hits[hi..] == old(hits[hi..])
      ensures r.Success? ==>
        && |replies| == hi - lo
        && r.value == Won(hits[lo..hi], replies)
        && AllStoredClaims(cluster.world.store, r.value, worker)
        && ClaimedDuring(hits[lo..hi], old(clock.now), clock.now)
        && AllClaimedFrom(old(hits[lo..hi]), hits[lo..hi], worker, searchedAt)
        && cluster.mine == old(cluster.mine) + sent
        && AttemptsOn(sent, hits[lo..hi])
      ensures ReturnsAccepted(cluster.world.store, old(cluster.accepted), cluster.accepted, worker, r)
      ensures Calm() ==>
        && r.Success?
        && AllTaken(old(cluster.world).store, old(hits[lo..hi]), cluster.world.store, r.value)
        && OthersStay(old(cluster.world).store, cluster.world.store, old(hits[lo..hi]))
    {
      hide Run, Step, Inv, Apply, Won, ItemOk, ClaimedFrom, Rising, WrittenBy, Happened, AcceptedVersions, ClaimsOf;
      hide FirstsAccepted, AllTaken, Undisturbed, StillLive, OthersStay;
      ghost var was, store0 := hits[lo..hi], cluster.world.store;
      replies, sent := [], [];
      var claimedAt := clock.GetUTC();
      var op := ClaimBy(worker, searchedAt, claimedAt);
      var items := ClaimInPlace(op, hits, lo, hi);
      ghost var attempted := hits[lo..hi];
      StampedWith(cluster.world.store, attempted, op);
      var response := BulkUpdateTasks(cluster, items, around.bulk(bulks));
      bulks := bulks + 1;
      ItemsAreClaims(cluster.world.store, cluster.accepted[|old(cluster.accepted)|..], items, op);
      if response.Failure? { return Failure(response.error), replies, sent; }
      replies, sent := response.value, BulkAttempts(items, around.bulk(old(bulks)));
      WonAreStoredClaims(cluster.world.store, attempted, replies, op);
      WonVersions(attempted, replies);
      if Calm() {
        assert Undisturbed(around.bulk(old(bulks)));
        FirstsTakeAll(store0, cluster.world.store, was, attempted, op, replies);
        ItemsLeaveOthers(store0, cluster.world.store, was, attempted, op);
      }
      var claimed := KeepAccepted(hits[lo..hi], response.value);
      r := Success(claimed);
    }

    /** One evaluation of `e.getUTC().Sub(startedAt) < blockFor`. */
    method StillTime(startedAt: Time, blockFor: Time, ghost sleeps0: nat, ghost wait: Time) returns (b: bool)
      requires wait > 0
      modifies clock
      ensures old(SleptWithin(clock, sleeps0, startedAt, blockFor, wait)) ==>
        SleptWithin(clock, sleeps0, startedAt, blockFor, wait)
      ensures clock.Exact() && old(OnTime(clock, sleeps0, startedAt, wait)) ==> OnTime(clock, sleeps0, startedAt, wait)
      ensures b <==> clock.now - startedAt < blockFor
      ensures clock.now >= old(clock.now) && clock.sleeps == old(clock.sleeps)
      ensures clock.Exact() ==> clock.now == old(clock.now)
    {
      var now := clock.GetUTC();
      b := now - startedAt < blockFor;
    }

    /** The inner search loop: search until something is found or the time is up, waiting in between. */
    method SearchUntilFound(limit: nat, startedAt: Time, blockFor: Time, wait: Time, ghost sleeps0: nat)
      returns (r: Result<array<Held>, ServiceError>, searchedAt: Time)
      requires Valid() && wait > 0 && SleptWithin(clock, sleeps0, startedAt, blockFor, wait)
      modifies this`searches, this`bulks, cluster, clock
      ensures Valid() && SleptWithin(clock, sleeps0, startedAt, blockFor, wait)
      ensures cluster.mine == old(cluster.mine) && cluster.accepted == old(cluster.accepted)
      ensures clock.now >= old(clock.now) && clock.sleeps >= old(clock.sleeps)
      ensures old(cluster.world).store.log <= cluster.world.store.log
      ensures searches - old(searches) <= clock.sleeps - old(clock.sleeps) + 1
      ensures r.Success? ==>
        && fresh(r.value)
        && (r.value.Length > 0 ==> searchedAt <= clock.now && AllHits(cluster.world.store, r.value[..], searchedAt))
      ensures Calm() ==> r.Success? && cluster.world == old(cluster.world)
      ensures Calm() && clock.Exact() && old(clock.now) - startedAt < blockFor && old(NextFind(limit)) != [] ==>
        r.Success? && r.value[..] == old(NextFind(limit))
      ensures NothingToClaim() && old(OnTime(clock, sleeps0, startedAt, wait))
                && old(clock.now) - startedAt < blockFor ==>
        && r.Success? && r.value.Length == 0
        && OnTime(clock, sleeps0, startedAt, wait) && clock.now - startedAt >= blockFor
        && searches - old(searches) == clock.sleeps - old(clock.sleeps) + 1
    {
      hide Run, Step, Inv, Calm, HeldHits, MaxSleeps, AllHits;
      ghost var find := NextFind(limit);
      ghost var offered := Calm() && clock.Exact() && clock.now - startedAt < blockFor && find != [];
      var hits := new Held[0];
      searchedAt := startedAt;
      var firstTry := true;
      var again := StillTime(startedAt, blockFor, sleeps0, wait);
      while again
        invariant Valid() && SleptWithin(clock, sleeps0, startedAt, blockFor, wait)
        invariant old(cluster.world).store.log <= cluster.world.store.log
        invariant cluster.mine == old(cluster.mine) && cluster.accepted == old(cluster.accepted)
        invariant clock.now >= old(clock.now) && clock.sleeps >= old(clock.sleeps)
        invariant again ==> clock.now - startedAt < blockFor && hits.Length == 0
        invariant firstTry ==> searches == old(searches) && clock.sleeps == old(clock.sleeps)
        invariant !firstTry ==> searches - old(searches) <= clock.sleeps - old(clock.sleeps) + 1
        invariant NothingToClaim() && old(OnTime(clock, sleeps0, startedAt, wait)) ==>
          && OnTime(clock, sleeps0, startedAt, wait) && hits.Length == 0
          && (firstTry ==> clock.now == old(clock.now))
          && (!again ==> clock.now - startedAt >= blockFor)
          && (!firstTry ==> searches - old(searches) == clock.sleeps - old(clock.sleeps) + 1)
        invariant fresh(hits)
        invariant Calm() ==> cluster.world == old(cluster.world)
        invariant offered ==> if firstTry then again && clock.now == old(clock.now) else !again && hits[..] == find
        invariant hits.Length > 0 ==> searchedAt <= clock.now && AllHits(cluster.world.store, hits[..], searchedAt)
        decreases if firstTry then 1 else 0, blockFor - (clock.now - startedAt), again
      {
        if !firstTry { SleepOnce(startedAt, blockFor, wait, sleeps0); }
        var found, at := SearchForClaimables(limit);
        if found.Failure? { return Failure(found.error), at; }
        hits, searchedAt := found.value, at;
        firstTry := false;
        again := false;
        if hits.Length == 0 { again := StillTime(startedAt, blockFor, sleeps0, wait); }
      }
      r := Success(hits);
    }

    /** A sleep that begins before blockFor has elapsed. */
    method SleepOnce(startedAt: Time, blockFor: Time, wait: Time, ghost sleeps0: nat)
      requires wait > 0 && SleptWithin(clock, sleeps0, startedAt, blockFor, wait)
      requires clock.now - startedAt < blockFor
      modifies clock
      ensures SleptWithin(clock, sleeps0, startedAt, blockFor, wait)
      ensures clock.now >= old(clock.now) + wait && clock.sleeps == old(clock.sleeps) + 1
      ensures clock.Exact() && old(OnTime(clock, sleeps0, startedAt, wait)) ==> OnTime(clock, sleeps0, startedAt, wait)
    {
      ghost var slept := clock.sleeps - sleeps0;
      SleepFits(slept, blockFor, wait);
      clock.Sleep(wait);
      assert (slept + 1) * wait == slept * wait + wait;
    }

    /** The window loop of searchAndClaim: as many hits as are still wanted are tried at a time, until
        enough are claimed or none are left. What was attempted, with which replies, is returned for
        the specification. */
    method ClaimThroughWindow(worker: string, desired: nat, hits: array<Held>, searchedAt: Time)
      returns (r: Result<seq<Held>, ServiceError>, ghost w: Window, ghost sent: seq<Action>)
      requires Valid()
      requires hits.Length > 0 ==> searchedAt <= clock.now && AllHits(cluster.world.store, hits[..], searchedAt)
      modifies this`bulks, cluster, clock, hits
      ensures Valid() && clock.now >= old(clock.now) && clock.sleeps == old(clock.sleeps)
      ensures old(cluster.world).store.log <= cluster.world.store.log
      ensures r.Success? ==>
        && w.found == old(hits[..]) && w.searchedAt == searchedAt
        && WindowOk(w, worker)
        && r.value == Won(w.attempted, w.replies)
        && |r.value| <= desired
        && (|r.value| == desired || |w.attempted| == |w.found|)
        && cluster.mine == old(cluster.mine) + sent
        && AttemptsOn(sent, w.attempted)
        && AllStoredClaims(cluster.world.store, r.value, worker)
      ensures ReturnsAccepted(cluster.world.store, old(cluster.accepted), cluster.accepted, worker, r)
      ensures hits.Length == 0 ==> r == Success([]) && clock.now == old(clock.now)
      ensures Calm() ==> r.Success?
      ensures Calm() && |r.value| < desired ==>
        AllTaken(old(cluster.world).store, old(hits[..]), cluster.world.store, r.value)
    {
      hide Run, Step, Inv, Won, AllHits, AllClaimedFrom, AllStoredClaims, AttemptsOn, WindowOk, Rising, ReturnsAccepted;
      hide Calm, AllTaken, Valid, LiveOrTaken, OthersStay, IsHit, ClaimedFrom, ClaimsOf, Versions, Apply, Eligible;
      ghost var w0, accepted0, mine0, now0 := cluster.world, cluster.accepted, cluster.mine, clock.now;
      ghost var found := hits[..];
      w, sent := Window(hits[..], searchedAt, [], []), [];
      var claimed: seq<Held> := [];
      var start := |claimed|;
      WonNothing();
      NothingTried(cluster.world.store, worker, hits[..], searchedAt);
      NothingReturned(cluster.world.store, cluster.accepted, worker);
      LiveAtFirst(cluster.world.store, found);
      while |claimed| < desired && start < hits.Length
        invariant Valid() && clock.now >= now0 && clock.sleeps == old(clock.sleeps)
        invariant w0.store.log <= cluster.world.store.log
        invariant w.searchedAt == searchedAt && w.found == found
        invariant hits.Length > 0 ==> AllHits(cluster.world.store, w.found, searchedAt)
        invariant |w.attempted| == |w.replies| == if start < hits.Length then start else hits.Length
        invariant hits[|w.attempted|..] == w.found[|w.attempted|..]
        invariant WindowOk(w, worker)
        invariant |claimed| <= desired && claimed == Won(w.attempted, w.replies)
        invariant hits.Length == 0 ==> claimed == [] && clock.now == now0
        invariant cluster.mine == mine0 + sent && AttemptsOn(sent, w.attempted)
        invariant AllStoredClaims(cluster.world.store, claimed, worker)
        invariant ReturnsAccepted(cluster.world.store, accepted0, cluster.accepted, worker,
                                  Success(claimed))
        invariant Calm() ==> LiveOrTaken(w0.store, found, cluster.world.store, claimed, start)
        decreases hits.Length - start
      {
        var target := desired - |claimed|;
        var end := if start + target < hits.Length then start + target else hits.Length;
        ghost var before, accepted := cluster.world.store, cluster.accepted;
        SameSlices(hits[..], w.found, start, end);
        assert hits[start..end] == hits[..][start..end] && hits[end..] == hits[..][end..];
        HitsInWindow(before, w.found, searchedAt, start, end);
        ghost var was := hits[start..end];
        var claim, replies, attempts := MakeClaim(worker, hits, start, end, searchedAt);
        ReturnsMore(before, cluster.world.store, accepted0, accepted, cluster.accepted, worker, claimed,
            claim);
        if claim.Failure? { return Failure(claim.error), w, sent; }
        ghost var part := hits[start..end];
        ExtendWindow(w, worker, was, part, replies);
        WonAtMost(part, replies);
        WonConcat(w.attempted, w.replies, part, replies);
        ClaimsStay(before, cluster.world.store, claimed, worker);
        ClaimsConcat(cluster.world.store, claimed, claim.value, worker);
        AttemptsConcat(sent, w.attempted, attempts, part);
        HitsStay(before, cluster.world.store, w.found, searchedAt);
        if Calm() {
          LiveAfterWindow(w0.store, found, searchedAt, before, cluster.world.store, claimed, claim.value, start, end,
              start + target);
        }
        w := w.(attempted := w.attempted + part, replies := w.replies + replies);
        sent := sent + attempts;
        claimed := claimed + claim.value;
        start := start + target;
      }
      if Calm() && |claimed| < desired { NoneLeft(w0.store, found, cluster.world.store, claimed, start); }
      r := Success(claimed);
    }

    method SearchAndClaim(worker: string, desired: nat, startedAt: Time, blockFor: Time, wait: Time, ghost sleeps0: nat)
      returns (r: Result<seq<Held>, ServiceError>, ghost w: Window)
      requires Valid() && wait > 0 && SleptWithin(clock, sleeps0, startedAt, blockFor, wait)
      modifies this`searches, this`bulks, cluster, clock
      ensures Valid() && SleptWithin(clock, sleeps0, startedAt, blockFor, wait)
      ensures clock.now >= old(clock.now) && clock.sleeps >= old(clock.sleeps)
      ensures old(cluster.world).store.log <= cluster.world.store.log
      ensures searches - old(searches) <= clock.sleeps - old(clock.sleeps) + 1
      ensures r.Success? ==>
        && WindowOk(w, worker)
        && r.value == Won(w.attempted, w.replies)
        && |r.value| <= desired
        && (|r.value| == desired || |w.attempted| == |w.found|)
        && AllStoredClaims(cluster.world.store, r.value, worker)
      ensures ReturnsAccepted(cluster.world.store, old(cluster.accepted), cluster.accepted, worker, r)
      ensures Calm() ==> r.Success?
      ensures Calm() && clock.Exact() && old(clock.now) - startedAt < blockFor ==>
        var find := old(NextFind(SearchLimit(desired)));
        find != [] && |r.value| < desired ==> AllTaken(old(cluster.world).store, find, cluster.world.store, r.value)
      ensures NothingToClaim() && old(OnTime(clock, sleeps0, startedAt, wait))
                && old(clock.now) - startedAt < blockFor ==>
        && r == Success([])
        && OnTime(clock, sleeps0, startedAt, wait) && clock.now - startedAt >= blockFor
        && searches - old(searches) == clock.sleeps - old(clock.sleeps) + 1
    {
      hide Run, Step, Inv, Won, AllHits, WindowOk, IsStoredClaim, AttemptsOn, Rising, AllTaken, Calm;
      w := Window([], startedAt, [], []);
      NothingReturned(cluster.world.store, cluster.accepted, worker);
      var search, searchedAt := SearchUntilFound(SearchLimit(desired), startedAt, blockFor, wait, sleeps0);
      if search.Failure? {
        NothingReturned(cluster.world.store, cluster.accepted, worker);
        return Failure(search.error), w;
      }
      hide ReturnsAccepted;
      ghost var sent;
      r, w, sent := ClaimThroughWindow(worker, desired, search.value, searchedAt);
    }

    /** The rest of the loop body of Claim: search for as many as are still wanted, and add what is claimed. */
    method ClaimMore(worker: string, allClaimed: seq<Held>, desiredTasks: nat, startUTC: Time, blockFor: Time,
                     wait: Time,
                     ghost sleeps0: nat, ghost accepted0: seq<Version>, ghost store0: TaskStore, ghost find: seq<Held>)
      returns (r: Result<seq<Held>, ServiceError>)
      requires Valid() && wait > 0 && SleptWithin(clock, sleeps0, startUTC, blockFor, wait)
      requires |allClaimed| < desiredTasks && AllStoredClaims(cluster.world.store, allClaimed, worker)
      requires ReturnsAccepted(cluster.world.store, accepted0, cluster.accepted, worker, Success(allClaimed))
      modifies this`searches, this`bulks, cluster, clock
      ensures Valid() && SleptWithin(clock, sleeps0, startUTC, blockFor, wait)
      ensures clock.now >= old(clock.now) && clock.sleeps >= old(clock.sleeps)
      ensures searches - old(searches) <= clock.sleeps - old(clock.sleeps) + 1
      ensures r.Success? ==> |r.value| <= desiredTasks && AllStoredClaims(cluster.world.store, r.value, worker)
      ensures ReturnsAccepted(cluster.world.store, accepted0, cluster.accepted, worker, r)
      ensures Calm() ==> r.Success?
      ensures r.Success? && AllTaken(store0, find, old(cluster.world).store, allClaimed) ==>
        AllTaken(store0, find, cluster.world.store, r.value)
      ensures && Calm() && clock.Exact() && old(clock.now) - startUTC < blockFor && allClaimed == []
              && old(store0 == cluster.world.store && find == NextFind(SearchLimit(desiredTasks)))
              && find != [] && r.Success? && |r.value| < desiredTasks ==>
                AllTaken(store0, find, cluster.world.store, r.value)
      ensures NothingToClaim() && old(OnTime(clock, sleeps0, startUTC, wait))
                && old(clock.now) - startUTC < blockFor && allClaimed == [] ==>
        && r == Success([])
        && OnTime(clock, sleeps0, startUTC, wait) && clock.now - startUTC >= blockFor
        && searches - old(searches) == clock.sleeps - old(clock.sleeps) + 1
    {
      hide Run, Step, Inv, Won, AllStoredClaims, MaxSleeps, Rising, ReturnsAccepted, Calm, AllTaken, HeldHits;
      hide SleptWithin, OnTime, WindowOk, NothingToClaim, Clock.Exact, Valid, SearchLimit;
      var nextDesiredCount := desiredTasks - |allClaimed|;
      ghost var before, accepted := cluster.world.store, cluster.accepted;
      var claimed, _ := SearchAndClaim(worker, nextDesiredCount, startUTC, blockFor, wait, sleeps0);
      ReturnsMore(before, cluster.world.store, accepted0, accepted, cluster.accepted, worker, allClaimed, claimed);
      if claimed.Failure? { return Failure(claimed.error); }
      ClaimsStay(before, cluster.world.store, allClaimed, worker);
      ClaimsConcat(cluster.world.store, allClaimed, claimed.value, worker);
      if AllTaken(store0, find, before, allClaimed) {
        AllStayTaken(store0, find, before, cluster.world.store, allClaimed, claimed.value);
      }
      assert [] + claimed.value == claimed.value;
      r := Success(allClaimed + claimed.value);
    }

    /** Claim: at most as many tasks as desired; at most MaxSleeps waits over both loops, each begun
        before blockFor has passed, and at most one search more than waits. With nothing to claim, and
        nothing but the waits taking time, it makes exactly as many. If nobody else acts and it returns
        fewer than desired, it has claimed all that was due of what its first search was offered. */
    method Claim(worker: string, desiredTasks: nat, blockFor: Time) returns (r: Result<seq<Held>, ServiceError>)
      requires Valid() && desiredTasks < INT_LIMIT
      requires RetryWait(minWait, maxRetries, blockFor) > 0
      modifies this`searches, this`bulks, cluster, clock
      ensures Valid()
      ensures clock.sleeps - old(clock.sleeps) <= MaxSleeps(blockFor, RetryWait(minWait, maxRetries, blockFor))
      ensures searches - old(searches) <= clock.sleeps - old(clock.sleeps) + 1
      ensures r.Success? ==> |r.value| <= desiredTasks && AllStoredClaims(cluster.world.store, r.value, worker)
      ensures ReturnsAccepted(cluster.world.store, old(cluster.accepted), cluster.accepted, worker, r)
      ensures r.Success? ==> forall i, j :: 0 <= i < j < |r.value| ==> r.value[i].version < r.value[j].version
      ensures Calm() ==> r.Success?
      ensures Calm() && clock.Exact() && blockFor > 0 && |r.value| < desiredTasks
                && FitsSearch(|around.candidates(old(searches))|, desiredTasks) ==>
        AllDueTaken(old(cluster.world).store, around.candidates(old(searches)), old(clock.now), cluster.world.store,
                    r.value)
      ensures r.Success? && |r.value| < desiredTasks ==> clock.now - old(clock.now) >= blockFor
      ensures NothingToClaim() && desiredTasks > 0 && blockFor > 0 ==>
        && r == Success([])
        && clock.sleeps - old(clock.sleeps) == MaxSleeps(blockFor, RetryWait(minWait, maxRetries, blockFor))
        && searches - old(searches) == clock.sleeps - old(clock.sleeps) + 1
    {
      hide Run, Step, Inv, Won, AllStoredClaims, MaxSleeps, RetryWait, Rising, ReturnsAccepted, Calm, AllTaken;
      hide HeldHits;
      hide AllDueTaken, SleptWithin, OnTime, WindowOk;
      ghost var idle := NothingToClaim() && desiredTasks > 0 && blockFor > 0;
      assert idle ==> clock.Exact();
      ValidMeans();
      FitsMeans(|around.candidates(searches)|, desiredTasks);
      hide NothingToClaim, Clock.Exact, Valid, SearchLimit, FitsSearch;
      ghost var w0, accepted0, searches0, now0 := cluster.world, cluster.accepted, searches, clock.now;
      ghost var find := NextFind(SearchLimit(desiredTasks));
      ghost var offered := Calm() && clock.Exact() && desiredTasks > 0 && blockFor > 0 && find != [];
      var allClaimed: seq<Held> := [];
      NothingReturned(cluster.world.store, cluster.accepted, worker);
      NothingTried(cluster.world.store, worker, [], 0);
      var startUTC := clock.GetUTC();
      var wait := RetryWait(minWait, maxRetries, blockFor);
      ghost var sleeps0 := clock.sleeps;
      NoSleepYet(clock, blockFor, wait);
      var firstTry := true;
      var again := false;
      if |allClaimed| < desiredTasks { again := StillTime(startUTC, blockFor, sleeps0, wait); }
      while again
        invariant Valid() && SleptWithin(clock, sleeps0, startUTC, blockFor, wait)
        invariant startUTC >= now0
        invariant |allClaimed| <= desiredTasks && AllStoredClaims(cluster.world.store, allClaimed, worker)
        invariant ReturnsAccepted(cluster.world.store, accepted0, cluster.accepted, worker,
                                  Success(allClaimed))
        invariant again ==> clock.now - startUTC < blockFor && |allClaimed| < desiredTasks
        invariant !again && |allClaimed| < desiredTasks ==> clock.now - startUTC >= blockFor
        invariant firstTry ==> searches == searches0 && clock.sleeps == sleeps0
        invariant !firstTry ==> searches - searches0 <= clock.sleeps - sleeps0 + 1
        invariant idle ==>
          && OnTime(clock, sleeps0, startUTC, wait) && allClaimed == []
          && (firstTry ==> again)
          && (!firstTry ==>
              !again && clock.now - startUTC >= blockFor && searches - searches0 == clock.sleeps - sleeps0 + 1)
        invariant offered ==>
          if firstTry then
            && again && allClaimed == [] && cluster.world == w0
            && clock.now == now0 == startUTC && searches == searches0
          else |allClaimed| < desiredTasks ==> AllTaken(w0.store, find, cluster.world.store, allClaimed)
        decreases if firstTry then 1 else 0, blockFor - (clock.now - startUTC), again
      {
        if !firstTry { SleepOnce(startUTC, blockFor, wait, sleeps0); }
        var claimed := ClaimMore(worker, allClaimed, desiredTasks, startUTC, blockFor, wait, sleeps0,
                                 accepted0, w0.store, find);
        SleptAtMost(clock, sleeps0, startUTC, blockFor, wait);
        if claimed.Failure? { return Failure(claimed.error); }
        allClaimed := claimed.value;
        firstTry := false;
        again := false;
        if |allClaimed| < desiredTasks { again := StillTime(startUTC, blockFor, sleeps0, wait); }
      }
      SleptAtMost(clock, sleeps0, startUTC, blockFor, wait);
      if idle {
        SleptExactly(clock, sleeps0, startUTC, blockFor, wait);
        SleepsCover(clock.sleeps - sleeps0, blockFor, wait);
      }
      OfferedIsTaken(w0, around.candidates(searches0), now0,
          SearchLimit(desiredTasks), cluster.world.store, allClaimed);
      ValidMeans();
      ReturnedInOrder(cluster.world.store, accepted0, cluster.accepted, worker, allClaimed);
      r := Success(allClaimed);
    }
  }

  /** A call that makes one wait more than the configured maximum of 20: its block time leaves a remainder
      of one nanosecond, and there is nothing to claim. */
  method OneWaitTooMany(claimer: Claimer, worker: string)
    requires claimer.Valid() && claimer.NothingToClaim() && claimer.minWait == 1 && claimer.maxRetries == 20
    modifies claimer, claimer.cluster, claimer.clock
    ensures claimer.clock.sleeps - old(claimer.clock.sleeps) == 21
  {
    RoundedShareAllowsOneMore();
    var _ := claimer.Claim(worker, 1, 3_000_000_001);
  }
}
