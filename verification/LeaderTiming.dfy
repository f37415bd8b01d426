/**
Mutual exclusion of the leader lock, under the timing it relies on: if every leader renews soon
enough, a usurper's conditional write always comes too late, because it comes at least a lease after
the start of the pass in which the usurper read the document.
*/
module LeaderTiming {
  import opened Wrappers
  import opened VersionedStore
  import opened LeaderLock

  /** The version that makes q a leader: the one its last write was accepted as, if it is LEADER or is
      about to learn that it became LEADER. */
  function HeldVersion(q: Proc): Option<Version> {
    if q.phase.Answered? && q.state in {LEADER, PRETENDER, USURPER} then
      (if q.phase.answer.Info? then Some(q.phase.answer.info.version) else None)
    else if q.state == LEADER && q.stash.Some? then Some(q.stash.value.version)
    else None
  }

  /** No store errors, no outside interference, reads of the lock document answered within `latency` of
      the start of the pass, and no leader lets more than `renewWithin` pass after its last commit
      without committing its next renewal. */
  ghost predicate Timely(sys: System, a: Action, renewWithin: Time, latency: Time) {
    match a
    case Tick(to) =>
      forall p :: p in sys.procs && HeldVersion(sys.procs[p]).Some? ==>
        var v := HeldVersion(sys.procs[p]).value;
        v < |sys.store.log| ==> to <= sys.store.log[v].cause + renewWithin
    case Serve(p, _, fate) =>
      && fate.Served?
      && (p in sys.procs && sys.procs[p].phase.Calling? && sys.procs[p].state == CHECKER ==>
            sys.now <= sys.procs[p].phase.loopStart + latency)
    case OutsideDelete => false
    case OutsideWrite(_) => false
    case _ => true
  }

  ghost predicate TimelyRun(sys: System, actions: seq<Action>, renewWithin: Time, latency: Time)
    decreases actions
  {
    actions == [] ||
    (Timely(sys, actions[0], renewWithin, latency)
        && TimelyRun(Step(sys, actions[0]), actions[1..], renewWithin, latency))
  }

  /** The lock document as it is now: its version and its holder. */
  ghost predicate LiveIs(sys: System, v: Version) { Holds(sys.store, LockDoc, v) && v < |sys.store.log| }

  /** A process that counts as leader holds the live version, and that document names it. */
  ghost predicate LeaderOk(sys: System, p: ProcessId)
    requires p in sys.procs
  {
    HeldVersion(sys.procs[p]).Some? ==>
      var v := HeldVersion(sys.procs[p]).value;
      && LiveIs(sys, v)
      && sys.store.log[v].doc.leaderId == p
      && sys.store.log[v].doc.lease == sys.procs[p].lease
      && sys.store.log[v].cause <= sys.now
  }

  /** A running process that the live document names knows it; a LEADER's requests are granted; and a
      CHECKER is never told that it is the leader. */
  ghost predicate NamedKnows(sys: System, p: ProcessId)
    requires p in sys.procs
  {
    && (sys.procs[p].state == LEADER ==> HeldVersion(sys.procs[p]).Some?)
    && (LockDoc in sys.store.live && sys.store.live[LockDoc] < |sys.store.log|
        && sys.store.log[sys.store.live[LockDoc]].doc.leaderId == p && sys.procs[p].state != STOPPED
        ==> HeldVersion(sys.procs[p]).Some?)
    && (sys.procs[p].state == CHECKER && sys.procs[p].phase.Answered? && sys.procs[p].phase.answer.Info? ==>
          sys.procs[p].phase.answer.info.source.leaderId != p)
  }

  /** The copy is of the live document and its holder counts as leader. */
  ghost predicate OfActiveLeader(sys: System, info: LeaderInfo) {
    && LiveIs(sys, info.version)
    && info.source == sys.store.log[info.version].doc
    && info.source.leaderId in sys.procs
    && HeldVersion(sys.procs[info.source.leaderId]).Some?
  }

  /** Whoever waits to usurp an active leader will act only after that leader's renewal is due. */
  ghost predicate UsurperLate(sys: System, q: ProcessId, renewWithin: Time)
    requires q in sys.procs
  {
    var u := sys.procs[q];
    && (u.state == USURPER && u.stash.Some? && OfActiveLeader(sys, u.stash.value) ==>
          var due := sys.store.log[u.stash.value.version].cause + renewWithin;
          && (u.phase.Sleeping? ==> u.wakeAt > due)
          && (u.phase.Calling? ==> u.phase.loopStart > due))
    && (u.state == CHECKER && u.phase.Answered? && u.phase.answer.Info? && OfActiveLeader(sys, u.phase.answer.info) ==>
          var info := u.phase.answer.info;
          u.phase.loopStart + info.source.lease > sys.store.log[info.version].cause + renewWithin)
  }

  ghost predicate ClockOk(sys: System, p: ProcessId, renewWithin: Time)
    requires p in sys.procs
  {
    && (!sys.procs[p].phase.Sleeping? ==> sys.procs[p].phase.loopStart <= sys.now)
    && (HeldVersion(sys.procs[p]).Some? && HeldVersion(sys.procs[p]).value < |sys.store.log| ==>
          sys.now <= sys.store.log[HeldVersion(sys.procs[p]).value].cause + renewWithin)
  }

  ghost predicate ProcTimed(sys: System, p: ProcessId, renewWithin: Time)
    requires p in sys.procs
  {
    LeaderOk(sys, p) && NamedKnows(sys, p) && UsurperLate(sys, p, renewWithin) && ClockOk(sys, p, renewWithin)
  }

  ghost predicate CommitsPast(sys: System) {
    forall v :: 0 <= v < |sys.store.log| ==> sys.store.log[v].cause <= sys.now
  }

  ghost predicate TimedInv(sys: System, renewWithin: Time, latency: Time) {
    && Inv(sys)
    && renewWithin >= 0 && latency >= 0
    && CommitsPast(sys)
    && (forall p :: p in sys.procs ==> renewWithin + latency < sys.procs[p].lease)
    && (forall p :: p in sys.procs ==> ProcTimed(sys, p, renewWithin))
  }

  /** Two processes that count as leader are the same one. */
  lemma OneHolder(sys: System, p: ProcessId, q: ProcessId, renewWithin: Time, latency: Time)
    requires TimedInv(sys, renewWithin, latency) && p in sys.procs && q in sys.procs
    requires HeldVersion(sys.procs[p]).Some? && HeldVersion(sys.procs[q]).Some?
    ensures p == q
  {
    assert ProcTimed(sys, p, renewWithin) && ProcTimed(sys, q, renewWithin);
  }

  lemma TickKeeps(sys: System, to: Time, renewWithin: Time, latency: Time)
    requires TimedInv(sys, renewWithin, latency) && Timely(sys, Tick(to), renewWithin, latency)
    ensures TimedInv(Step(sys, Tick(to)), renewWithin, latency)
  {
    var sys' := Step(sys, Tick(to));
    StepKeepsInv(sys, Tick(to));
    forall p | p in sys'.procs
      ensures ProcTimed(sys', p, renewWithin)
    {
      assert ProcTimed(sys, p, renewWithin);
    }
  }

  lemma BeginKeepsHeld(sys: System, p: ProcessId, renewWithin: Time, latency: Time)
    requires TimedInv(sys, renewWithin, latency)
    ensures var sys' := Step(sys, Begin(p));
      && sys'.store == sys.store && sys'.now == sys.now && sys'.procs.Keys == sys.procs.Keys
      && forall r :: r in sys.procs ==> HeldVersion(sys'.procs[r]) == HeldVersion(sys.procs[r])
  {
    hide Valid, ProcOk;
    if p in sys.procs { assert ProcTimed(sys, p, renewWithin); }
  }

  lemma BeginKeepsAt(sys: System, p: ProcessId, q: ProcessId, renewWithin: Time, latency: Time)
    requires TimedInv(sys, renewWithin, latency) && q in sys.procs
    ensures q in Step(sys, Begin(p)).procs && ProcTimed(Step(sys, Begin(p)), q, renewWithin)
  {
    var sys' := Step(sys, Begin(p));
    BeginKeepsHeld(sys, p, renewWithin, latency);
    assert ProcTimed(sys, q, renewWithin);
    if q == p {
      hide Valid, ProcOk, Inv;
    } else {
      assert sys'.procs[q] == sys.procs[q];
      OthersStayTimed(sys, sys', q, renewWithin);
    }
  }

  lemma BeginKeeps(sys: System, p: ProcessId, renewWithin: Time, latency: Time)
    requires TimedInv(sys, renewWithin, latency)
    ensures TimedInv(Step(sys, Begin(p)), renewWithin, latency)
  {
    var sys' := Step(sys, Begin(p));
    StepKeepsInv(sys, Begin(p));
    forall q | q in sys'.procs
      ensures ProcTimed(sys', q, renewWithin)
    {
      BeginKeepsAt(sys, p, q, renewWithin, latency);
    }
  }

  lemma StopKeepsAt(sys: System, p: ProcessId, q: ProcessId, renewWithin: Time, latency: Time)
    requires TimedInv(sys, renewWithin, latency) && q in sys.procs
    ensures q in Step(sys, Stop(p)).procs && ProcTimed(Step(sys, Stop(p)), q, renewWithin)
  {
    hide Inv, CommitsPast;
    assert ProcTimed(sys, q, renewWithin);
  }

  lemma StopKeeps(sys: System, p: ProcessId, renewWithin: Time, latency: Time)
    requires TimedInv(sys, renewWithin, latency)
    ensures TimedInv(Step(sys, Stop(p)), renewWithin, latency)
  {
    var sys' := Step(sys, Stop(p));
    StepKeepsInv(sys, Stop(p));
    hide Inv, ProcTimed;
    forall q | q in sys'.procs
      ensures ProcTimed(sys', q, renewWithin)
    {
      StopKeepsAt(sys, p, q, renewWithin, latency);
    }
  }

  /** What a pass's end means for the process itself. */
  lemma FinishSelf(sys: System, p: ProcessId, renewWithin: Time, latency: Time)
    requires TimedInv(sys, renewWithin, latency) && Enabled(sys, Finish(p))
    ensures HeldVersion(Step(sys, Finish(p)).procs[p]) == HeldVersion(sys.procs[p])
    ensures ProcTimed(Step(sys, Finish(p)), p, renewWithin)
  {
    var sys' := Step(sys, Finish(p));
    var u := sys.procs[p];
    assert ProcTimed(sys, p, renewWithin) && ProcOk(sys.store, p, u);
    assert HeldVersion(sys'.procs[p]) == HeldVersion(u);
    match u.state {
      case CHECKER =>
        if u.phase.answer.Info? {
          var info := u.phase.answer.info;
          if OfActiveLeader(sys', info) {
            assert OfActiveLeader(sys, info);
            assert ProcTimed(sys, info.source.leaderId, renewWithin);
          }
        }
      case _ =>
    }
  }

  lemma FinishKeeps(sys: System, p: ProcessId, renewWithin: Time, latency: Time)
    requires TimedInv(sys, renewWithin, latency)
    ensures TimedInv(Step(sys, Finish(p)), renewWithin, latency)
  {
    var sys' := Step(sys, Finish(p));
    StepKeepsInv(sys, Finish(p));
    if Enabled(sys, Finish(p)) {
      FinishSelf(sys, p, renewWithin, latency);
      forall q | q in sys'.procs
        ensures ProcTimed(sys', q, renewWithin)
      {
        if q != p { OthersStayTimed(sys, sys', q, renewWithin); }
      }
    }
  }

  lemma OthersStayTimed(sys: System, sys': System, q: ProcessId, renewWithin: Time)
    requires sys'.store == sys.store && sys'.now == sys.now && sys'.procs.Keys == sys.procs.Keys
    requires q in sys.procs && sys'.procs[q] == sys.procs[q] && ProcTimed(sys, q, renewWithin)
    requires forall p :: p in sys.procs ==> HeldVersion(sys'.procs[p]) == HeldVersion(sys.procs[p])
    ensures ProcTimed(sys', q, renewWithin)
  {
  }

  /** A write was accepted: what one process knows after it. */
  lemma ServeCommitKeepsAt(sys: System, p: ProcessId, q: ProcessId, at: Time, fate: Fate, renewWithin: Time,
                           latency: Time)
    requires TimedInv(sys, renewWithin, latency) && Timely(sys, Serve(p, at, fate), renewWithin, latency)
    requires Enabled(sys, Serve(p, at, fate)) && sys.procs[p].state in {LEADER, PRETENDER, USURPER} && q in sys.procs
    requires var u := sys.procs[p];
      Ask(sys.store, p, u.state, u.stash, u.lease, at, sys.now, fate) ==
      (Put(sys.store, LockDoc, LeaderData(p, at, u.lease), sys.now),
       Info(LeaderInfo(|sys.store.log|, LeaderData(p, at, u.lease))))
    requires q != p ==> HeldVersion(sys.procs[q]).None?
    ensures q in Step(sys, Serve(p, at, fate)).procs && ProcTimed(Step(sys, Serve(p, at, fate)), q, renewWithin)
  {
    assert ProcTimed(sys, q, renewWithin) && ProcOk(sys.store, q, sys.procs[q]);
    hide Valid, CommitsPast, Ask, Inv;
  }

  /** A write was accepted: the writer is now the holder, and nobody else was one. */
  lemma ServeCommitKeeps(sys: System, p: ProcessId, at: Time, fate: Fate, renewWithin: Time, latency: Time)
    requires TimedInv(sys, renewWithin, latency) && Timely(sys, Serve(p, at, fate), renewWithin, latency)
    requires Enabled(sys, Serve(p, at, fate)) && sys.procs[p].state in {LEADER, PRETENDER, USURPER}
    requires var q := sys.procs[p];
      Ask(sys.store, p, q.state, q.stash, q.lease, at, sys.now, fate) ==
      (Put(sys.store, LockDoc, LeaderData(p, at, q.lease), sys.now),
       Info(LeaderInfo(|sys.store.log|, LeaderData(p, at, q.lease))))
    requires forall q :: q in sys.procs && q != p ==> HeldVersion(sys.procs[q]).None?
    ensures TimedInv(Step(sys, Serve(p, at, fate)), renewWithin, latency)
  {
    var sys' := Step(sys, Serve(p, at, fate));
    StepKeepsInv(sys, Serve(p, at, fate));
    hide Inv, ProcTimed, Ask;
    forall q | q in sys'.procs
      ensures ProcTimed(sys', q, renewWithin)
    {
      ServeCommitKeepsAt(sys, p, q, at, fate, renewWithin, latency);
    }
  }

  /** Nothing was written: what one process knows still holds. */
  lemma ServeNoCommitKeepsAt(sys: System, p: ProcessId, q: ProcessId, at: Time, fate: Fate, renewWithin: Time,
                             latency: Time)
    requires TimedInv(sys, renewWithin, latency) && Timely(sys, Serve(p, at, fate), renewWithin, latency)
    requires Enabled(sys, Serve(p, at, fate)) && sys.procs[p].state != LEADER && q in sys.procs
    requires var u := sys.procs[p];
      && Ask(sys.store, p, u.state, u.stash, u.lease, at, sys.now, fate).0 == sys.store
      && (Ask(sys.store, p, u.state, u.stash, u.lease, at, sys.now, fate).1.Info? ==> u.state == CHECKER)
    ensures q in Step(sys, Serve(p, at, fate)).procs && ProcTimed(Step(sys, Serve(p, at, fate)), q, renewWithin)
  {
    hide Valid, CommitsPast;
    var sys' := Step(sys, Serve(p, at, fate));
    assert HeldVersion(sys'.procs[p]) == HeldVersion(sys.procs[p]) == None;
    assert ProcTimed(sys, q, renewWithin) && ProcOk(sys.store, q, sys.procs[q]);
    if q == p && LockDoc in sys.store.live && sys.store.live[LockDoc] < |sys.store.log| {
      var holder := sys.store.log[sys.store.live[LockDoc]].doc.leaderId;
      assert holder in sys.procs ==> ProcTimed(sys, holder, renewWithin);
    }
  }

  /** Nothing was written. */
  lemma ServeNoCommitKeeps(sys: System, p: ProcessId, at: Time, fate: Fate, renewWithin: Time, latency: Time)
    requires TimedInv(sys, renewWithin, latency) && Timely(sys, Serve(p, at, fate), renewWithin, latency)
    requires Enabled(sys, Serve(p, at, fate)) && sys.procs[p].state != LEADER
    requires var q := sys.procs[p];
      && Ask(sys.store, p, q.state, q.stash, q.lease, at, sys.now, fate).0 == sys.store
      && (Ask(sys.store, p, q.state, q.stash, q.lease, at, sys.now, fate).1.Info? ==> q.state == CHECKER)
    ensures TimedInv(Step(sys, Serve(p, at, fate)), renewWithin, latency)
  {
    var sys' := Step(sys, Serve(p, at, fate));
    StepKeepsInv(sys, Serve(p, at, fate));
    hide Inv, ProcTimed, Ask;
    forall q | q in sys'.procs
      ensures ProcTimed(sys', q, renewWithin)
    {
      ServeNoCommitKeepsAt(sys, p, q, at, fate, renewWithin, latency);
    }
  }

  /** A usurper whose write is accepted takes over from nobody that still counts as leader. */
  lemma UsurperComesTooLate(sys: System, p: ProcessId, q: ProcessId, renewWithin: Time, latency: Time)
    requires TimedInv(sys, renewWithin, latency) && p in sys.procs && q in sys.procs && p != q
    requires sys.procs[p].state == USURPER && sys.procs[p].phase.Calling?
    requires HeldVersion(sys.procs[q]).Some?
    ensures sys.procs[p].stash.Some? && !Holds(sys.store, LockDoc, sys.procs[p].stash.value.version)
  {
    assert ProcOk(sys.store, p, sys.procs[p]) && ProcTimed(sys, p, renewWithin) && ProcTimed(sys, q, renewWithin);
  }

  lemma ServeKeeps(sys: System, p: ProcessId, at: Time, fate: Fate, renewWithin: Time, latency: Time)
    requires TimedInv(sys, renewWithin, latency) && Timely(sys, Serve(p, at, fate), renewWithin, latency)
    ensures TimedInv(Step(sys, Serve(p, at, fate)), renewWithin, latency)
  {
    if Enabled(sys, Serve(p, at, fate)) {
      var u := sys.procs[p];
      assert ProcTimed(sys, p, renewWithin) && ProcOk(sys.store, p, u);
      if u.state == CHECKER || Ask(sys.store, p, u.state, u.stash, u.lease, at, sys.now, fate).0 == sys.store {
        ServeNoCommitKeeps(sys, p, at, fate, renewWithin, latency);
      } else {
        forall q | q in sys.procs && q != p
          ensures HeldVersion(sys.procs[q]).None?
        {
          if HeldVersion(sys.procs[q]).Some? {
            assert ProcTimed(sys, q, renewWithin);
            if u.state == LEADER { OneHolder(sys, p, q, renewWithin, latency); }
            if u.state == USURPER { UsurperComesTooLate(sys, p, q, renewWithin, latency); }
            assert false;
          }
        }
        ServeCommitKeeps(sys, p, at, fate, renewWithin, latency);
      }
    }
  }

  lemma TimelyStepKeeps(sys: System, a: Action, renewWithin: Time, latency: Time)
    requires TimedInv(sys, renewWithin, latency) && Timely(sys, a, renewWithin, latency)
    ensures TimedInv(Step(sys, a), renewWithin, latency)
  {
    match a
    case Tick(to) => TickKeeps(sys, to, renewWithin, latency);
    case Begin(p) => BeginKeeps(sys, p, renewWithin, latency);
    case Serve(p, at, fate) => ServeKeeps(sys, p, at, fate, renewWithin, latency);
    case Finish(p) => FinishKeeps(sys, p, renewWithin, latency);
    case Stop(p) => StopKeeps(sys, p, renewWithin, latency);
  }

  lemma {:induction false} TimelyRunKeeps(sys: System, actions: seq<Action>, renewWithin: Time, latency: Time)
    requires TimedInv(sys, renewWithin, latency) && TimelyRun(sys, actions, renewWithin, latency)
    ensures TimedInv(Run(sys, actions), renewWithin, latency)
    decreases actions
  {
    if actions != [] {
      TimelyStepKeeps(sys, actions[0], renewWithin, latency);
      TimelyRunKeeps(Step(sys, actions[0]), actions[1..], renewWithin, latency);
    }
  }

  /** At most one process is LEADER at any moment of a timely run: any number of processes, started
      once each under ids that the lock document does not name yet, stopped at any time, whose leases
      exceed the renewal time plus the read latency. */
  lemma {:induction false} AtMostOneLeader(sys: System, actions: seq<Action>, renewWithin: Time, latency: Time,
                                           p: ProcessId, q: ProcessId)
    requires FreshStart(sys) && CommitsPast(sys)
    requires forall v :: 0 <= v < |sys.store.log| ==> sys.store.log[v].doc.leaderId !in sys.procs
    requires renewWithin >= 0 && latency >= 0
    requires forall p :: p in sys.procs ==> renewWithin + latency < sys.procs[p].lease
    requires TimelyRun(sys, actions, renewWithin, latency)
    requires p in Run(sys, actions).procs && q in Run(sys, actions).procs
    requires Run(sys, actions).procs[p].state == LEADER && Run(sys, actions).procs[q].state == LEADER
    ensures p == q
  {
    TimelyRunKeeps(sys, actions, renewWithin, latency);
    var e := Run(sys, actions);
    assert ProcTimed(e, p, renewWithin) && ProcTimed(e, q, renewWithin);
    OneHolder(e, p, q, renewWithin, latency);
  }

  // ---- the bound is tight ----

  lemma {:induction false} RunOn(sys: System, a: Action, rest: seq<Action>, renewWithin: Time)
    requires Timely(sys, a, renewWithin, 0) && TimelyRun(Step(sys, a), rest, renewWithin, 0)
    ensures Run(sys, [a] + rest) == Run(Step(sys, a), rest)
    ensures TimelyRun(sys, [a] + rest, renewWithin, 0)
  {
    assert ([a] + rest)[1..] == rest;
  }

  function Newcomer(lease: Time): Proc { Proc(CHECKER, None, 0, Sleeping, lease, 1) }

  function TwoNewcomers(lease: Time): System {
    System(Empty(), map["a" := Newcomer(lease), "b" := Newcomer(lease)], 0)
  }

  /** One pass of process p whose request is handled. */
  function Pass(p: ProcessId): seq<Action> { [Begin(p), Serve(p, 0, Served(true)), Finish(p)] }

  lemma {:induction false} PassRuns(sys: System, p: ProcessId, rest: seq<Action>, renewWithin: Time)
    requires p in sys.procs && sys.procs[p].phase == Sleeping && sys.procs[p].state != STOPPED
    requires sys.procs[p].wakeAt <= sys.now
    ensures var after := AfterPass(sys, p);
      TimelyRun(after, rest, renewWithin, 0) ==>
        Run(sys, Pass(p) + rest) == Run(after, rest) && TimelyRun(sys, Pass(p) + rest, renewWithin, 0)
  {
    var s1 := Step(sys, Begin(p));
    var s2 := Step(s1, Serve(p, 0, Served(true)));
    var after := AfterPass(sys, p);
    assert Step(s2, Finish(p)) == after;
    if TimelyRun(after, rest, renewWithin, 0) {
      RunOn(s2, Finish(p), rest, renewWithin);
      RunOn(s1, Serve(p, 0, Served(true)), [Finish(p)] + rest, renewWithin);
      RunOn(sys, Begin(p), [Serve(p, 0, Served(true))] + ([Finish(p)] + rest), renewWithin);
      assert Pass(p) + rest == [Begin(p)] + ([Serve(p, 0, Served(true))] + ([Finish(p)] + rest));
    }
  }

  /** The system after such a pass. */
  function AfterPass(sys: System, p: ProcessId): System
    requires p in sys.procs
  {
    var q := sys.procs[p];
    var (store, answer) := Ask(sys.store, p, q.state, q.stash, q.lease, 0, sys.now, Served(true));
    var o := Respond(p, q.state, q.stash, answer, q.interval);
    System(
      store,
      sys.procs[p :=
          q.(state := o.state, stash := o.stash, phase := Sleeping, wakeAt := WakeTime(sys.now, o.minWait, sys.now))],
      sys.now)
  }

  /** "a" checks and becomes leader while "b" finds it and prepares to usurp it. */
  lemma FirstPasses(lease: Time)
    requires lease > 0
    ensures var s1 := AfterPass(TwoNewcomers(lease), "a");
      && "a" in s1.procs && s1.procs["a"].phase == Sleeping && s1.procs["a"].state == PRETENDER
          && s1.procs["a"].wakeAt <= s1.now
      && var s2 := AfterPass(s1, "a");
      && s2.procs["a"].state == LEADER && HeldVersion(s2.procs["a"]) == Some(0)
      && |s2.store.log| == 1 && s2.store.log[0].cause == 0 && s2.store.log[0].doc == LeaderData("a", 0, lease)
      && s2.store.live == map[LockDoc := 0] && s2.now == 0
      && s2.procs.Keys == {"a", "b"} && s2.procs["b"] == Newcomer(lease)
  {
    var s1 := AfterPass(TwoNewcomers(lease), "a");
    assert s1.procs["a"].state == PRETENDER;
    var s2 := AfterPass(s1, "a");
    assert s2.procs["a"].state == LEADER;
  }

  lemma LaterPasses(s2: System, lease: Time)
    requires lease > 0
    requires s2.procs.Keys == {"a", "b"} && s2.procs["b"] == Newcomer(lease)
    requires s2.procs["a"].state == LEADER && HeldVersion(s2.procs["a"]) == Some(0)
    requires |s2.store.log| == 1 && s2.store.log[0].cause == 0 && s2.store.log[0].doc == LeaderData("a", 0, lease)
    requires s2.store.live == map[LockDoc := 0] && s2.now == 0
    ensures var s3 := AfterPass(s2, "b");
      && Timely(s3, Tick(lease), lease, 0)
      && var s4 := Step(s3, Tick(lease));
      && "b" in s4.procs && s4.procs["b"].phase == Sleeping && s4.procs["b"].state == USURPER
          && s4.procs["b"].wakeAt <= s4.now
      && var s5 := AfterPass(s4, "b");
      && "a" in s5.procs && "b" in s5.procs && s5.procs["b"].state == LEADER && s5.procs["a"].state == LEADER
  {
    var s3 := AfterPass(s2, "b");
    assert s3.procs["b"].state == USURPER && s3.procs["b"].wakeAt == lease;
    assert s3.procs["a"] == s2.procs["a"] && s3.store == s2.store;
  }

  /** With a renewal time equal to the lease, and no latency at all, two processes can be LEADER at once,
      so the strict bound in AtMostOneLeader cannot be relaxed. */
  lemma LeaseBoundIsTight(lease: Time) returns (actions: seq<Action>)
    requires lease > 0
    ensures FreshStart(TwoNewcomers(lease)) && TimelyRun(TwoNewcomers(lease), actions, lease, 0)
    ensures var e := Run(TwoNewcomers(lease), actions);
      && "a" in e.procs && "b" in e.procs
      && e.procs["a"].state == LEADER && e.procs["b"].state == LEADER
  {
    FirstPasses(lease);
    var s0 := TwoNewcomers(lease);
    var s1 := AfterPass(s0, "a");
    var s2 := AfterPass(s1, "a");
    LaterPasses(s2, lease);
    assert FreshStart(s0);
    hide Step, AfterPass, Timely, FreshStart, HeldVersion;
    var s3 := AfterPass(s2, "b");
    var s4 := Step(s3, Tick(lease));
    var last: seq<Action> := [];
    PassRuns(s4, "b", last, lease);
    RunOn(s3, Tick(lease), Pass("b") + last, lease);
    var fromS3 := [Tick(lease)] + (Pass("b") + last);
    PassRuns(s2, "b", fromS3, lease);
    PassRuns(s1, "a", Pass("b") + fromS3, lease);
    actions := Pass("a") + (Pass("a") + (Pass("b") + fromS3));
    PassRuns(s0, "a", Pass("a") + (Pass("b") + fromS3), lease);
  }
}
