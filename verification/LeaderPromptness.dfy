/**
Mutual exclusion of the leader lock from what its operators set and its machines do: the loop interval, the
leases, and how long a process may take to begin a pass, to have its request served, and to handle the
answer. Leaders that keep to these delays renew in time, so LeaderTiming.AtMostOneLeader applies.
*/
module LeaderPromptness {
  import opened VersionedStore
  import opened LeaderLock
  import opened LeaderTiming

  /** The longest interval of a process, and the longest delays: of the start of a pass after the wake-up time,
      of the request after the start, of the end of the pass after the request. */
  datatype Delays = Delays(interval: Time, begin: Time, request: Time, answer: Time) {

    /** How long after a leader's commit its next pass may start. */
    function NextStart(): Time { (if interval > answer then interval else answer) + begin }

    /** How long after it the next commit may come. */
    function Renewal(): Time { NextStart() + request }

    ghost predicate Valid() { interval >= 0 && begin >= 0 && request >= 0 && answer >= 0 }
  }

  /** Time does not run past what a process that counts as leader has to do next. */
  ghost predicate PromptUntil(q: Proc, commit: Time, to: Time, d: Delays) {
    match q.phase
    case Sleeping => to <= q.wakeAt + d.begin
    case Calling(loopStart) => to <= loopStart + d.request
    case Answered(_, _) => to <= commit + d.answer
  }

  /** No store errors, no outside interference, reads served within the delay of a request, and leaders prompt. */
  ghost predicate Prompt(sys: System, a: Action, d: Delays) {
    match a
    case Tick(to) =>
      forall p :: p in sys.procs && HeldVersion(sys.procs[p]).Some? ==>
        var v := HeldVersion(sys.procs[p]).value;
        v < |sys.store.log| ==> PromptUntil(sys.procs[p], sys.store.log[v].cause, to, d)
    case Serve(p, _, fate) =>
      && fate.Served?
      && (p in sys.procs && sys.procs[p].phase.Calling? && sys.procs[p].state == CHECKER ==>
            sys.now <= sys.procs[p].phase.loopStart + d.request)
    case OutsideDelete => false
    case OutsideWrite(_) => false
    case _ => true
  }

  ghost predicate PromptRun(sys: System, actions: seq<Action>, d: Delays)
    decreases actions
  {
    actions == [] || (Prompt(sys, actions[0], d) && PromptRun(Step(sys, actions[0]), actions[1..], d))
  }

  /** Where a process that counts as leader is in its cycle, counted from its last commit. */
  ghost predicate OnSchedule(sys: System, p: ProcessId, d: Delays)
    requires p in sys.procs
  {
    var q := sys.procs[p];
    && q.interval <= d.interval
    && (!q.phase.Sleeping? ==> q.phase.loopStart <= sys.now)
    && (HeldVersion(q).Some? && HeldVersion(q).value < |sys.store.log| ==>
          var commit := sys.store.log[HeldVersion(q).value].cause;
          match q.phase
          case Sleeping => sys.now <= q.wakeAt + d.begin && q.wakeAt + d.begin <= commit + d.NextStart()
          case Calling(loopStart) => loopStart <= commit + d.NextStart()
          case Answered(loopStart, _) => loopStart <= commit && sys.now <= commit + d.answer)
  }

  ghost predicate AllOnSchedule(sys: System, d: Delays) { forall p :: p in sys.procs ==> OnSchedule(sys, p, d) }

  /** A leader on schedule that is prompt is timely. */
  lemma PromptIsTimely(sys: System, a: Action, d: Delays)
    requires d.Valid() && AllOnSchedule(sys, d) && Prompt(sys, a, d)
    ensures Timely(sys, a, d.Renewal(), d.request)
  {
    if a.Tick? {
      forall p | p in sys.procs && HeldVersion(sys.procs[p]).Some?
        ensures var v := HeldVersion(sys.procs[p]).value;
          v < |sys.store.log| ==> a.to <= sys.store.log[v].cause + d.Renewal()
      {
        assert OnSchedule(sys, p, d);
      }
    }
  }

  /** One process, when another acts. */
  lemma OthersStayOnSchedule(sys: System, sys': System, p: ProcessId, d: Delays)
    requires p in sys.procs && p in sys'.procs && sys'.procs[p] == sys.procs[p] && sys'.now == sys.now
    requires sys.store.log <= sys'.store.log && Inv(sys) && OnSchedule(sys, p, d)
    ensures OnSchedule(sys', p, d)
  {
    HeldIsStored(sys, p);
    hide Inv;
    var h := HeldVersion(sys.procs[p]);
    if h.Some? { assert sys'.store.log[h.value] == sys.store.log[h.value]; }
  }

  lemma HeldIsStored(sys: System, p: ProcessId)
    requires Inv(sys) && p in sys.procs
    ensures HeldVersion(sys.procs[p]).Some? ==> HeldVersion(sys.procs[p]).value < |sys.store.log|
  {
    assert ProcOk(sys.store, p, sys.procs[p]);
  }

  lemma TickKeepsSchedule(sys: System, to: Time, d: Delays)
    requires d.Valid() && Inv(sys) && AllOnSchedule(sys, d) && Prompt(sys, Tick(to), d)
    ensures AllOnSchedule(Step(sys, Tick(to)), d)
  {
    forall p | p in sys.procs
      ensures OnSchedule(Step(sys, Tick(to)), p, d)
    {
      assert OnSchedule(sys, p, d);
      HeldIsStored(sys, p);
    }
  }

  lemma BeginKeepsSchedule(sys: System, p: ProcessId, d: Delays)
    requires d.Valid() && Inv(sys) && Enabled(sys, Begin(p)) && OnSchedule(sys, p, d)
    ensures OnSchedule(Step(sys, Begin(p)), p, d)
  {
    hide Inv;
  }

  lemma ServeKeepsSchedule(sys: System, p: ProcessId, at: Time, fate: Fate, d: Delays)
    requires d.Valid() && Inv(sys) && Enabled(sys, Serve(p, at, fate)) && OnSchedule(sys, p, d)
    ensures OnSchedule(Step(sys, Serve(p, at, fate)), p, d)
  {
    hide Inv;
    var q := sys.procs[p];
    var (s, answer) := Ask(sys.store, p, q.state, q.stash, q.lease, at, sys.now, fate);
    assert q.state in {LEADER, PRETENDER, USURPER} && answer.Info? ==>
        answer.info.version == |sys.store.log| && s.log[answer.info.version].cause == sys.now;
  }

  lemma FinishKeepsSchedule(sys: System, p: ProcessId, d: Delays)
    requires d.Valid() && Inv(sys) && Enabled(sys, Finish(p)) && OnSchedule(sys, p, d)
    requires sys.procs[p].state == CHECKER && sys.procs[p].phase.answer.Info? ==>
               sys.procs[p].phase.answer.info.source.leaderId != p
    ensures OnSchedule(Step(sys, Finish(p)), p, d)
  {
    WakesWhen(sys, p);
    HeldIsStored(sys, p);
    assert ProcOk(sys.store, p, sys.procs[p]);
    hide Inv;
  }

  lemma StopKeepsSchedule(sys: System, p: ProcessId, d: Delays)
    requires Enabled(sys, Stop(p)) && OnSchedule(sys, p, d)
    ensures OnSchedule(Step(sys, Stop(p)), p, d)
  {
  }

  lemma PromptStepKeeps(sys: System, a: Action, d: Delays)
    requires d.Valid() && TimedInv(sys, d.Renewal(), d.request) && AllOnSchedule(sys, d) && Prompt(sys, a, d)
    ensures TimedInv(Step(sys, a), d.Renewal(), d.request) && AllOnSchedule(Step(sys, a), d)
  {
    PromptIsTimely(sys, a, d);
    TimelyStepKeeps(sys, a, d.Renewal(), d.request);
    StepKeepsInv(sys, a);
    if a.Tick? {
      TickKeepsSchedule(sys, a.to, d);
    } else if Enabled(sys, a) {
      var sys' := Step(sys, a);
      assert OnSchedule(sys, a.p, d) && ProcTimed(sys, a.p, d.Renewal());
      match a {
        case Begin(p) => BeginKeepsSchedule(sys, p, d);
        case Serve(p, at, fate) => ServeKeepsSchedule(sys, p, at, fate, d);
        case Finish(p) => FinishKeepsSchedule(sys, p, d);
        case Stop(p) => StopKeepsSchedule(sys, p, d);
      }
      forall q | q in sys'.procs
        ensures OnSchedule(sys', q, d)
      {
        if q != a.p {
          assert OnSchedule(sys, q, d);
          OthersStayOnSchedule(sys, sys', q, d);
        }
      }
    }
  }

  lemma {:induction false} PromptRunKeeps(sys: System, actions: seq<Action>, d: Delays)
    requires d.Valid() && TimedInv(sys, d.Renewal(), d.request) && AllOnSchedule(sys, d) && PromptRun(sys, actions, d)
    ensures TimedInv(Run(sys, actions), d.Renewal(), d.request) && TimelyRun(sys, actions, d.Renewal(), d.request)
    decreases actions
  {
    hide TimedInv, AllOnSchedule, Prompt, Step, Timely;
    if actions != [] {
      PromptIsTimely(sys, actions[0], d);
      PromptStepKeeps(sys, actions[0], d);
      PromptRunKeeps(Step(sys, actions[0]), actions[1..], d);
    }
  }

  /** At most one process is LEADER at any moment, if the lease of each exceeds the interval, or the delay of an
      answer if that is longer, plus the delays of a start and of two requests. */
  lemma {:induction false} PromptLeadersExclude(sys: System, actions: seq<Action>, d: Delays, p: ProcessId,
                                                q: ProcessId)
    requires FreshStart(sys) && CommitsPast(sys)
    requires forall v :: 0 <= v < |sys.store.log| ==> sys.store.log[v].doc.leaderId !in sys.procs
    requires d.Valid() && forall p :: p in sys.procs ==> sys.procs[p].interval <= d.interval
    requires forall p :: p in sys.procs ==> d.Renewal() + d.request < sys.procs[p].lease
    requires PromptRun(sys, actions, d)
    requires p in Run(sys, actions).procs && q in Run(sys, actions).procs
    requires Run(sys, actions).procs[p].state == LEADER && Run(sys, actions).procs[q].state == LEADER
    ensures p == q
  {
    assert TimedInv(sys, d.Renewal(), d.request);
    assert AllOnSchedule(sys, d);
    PromptRunKeeps(sys, actions, d);
    AtMostOneLeader(sys, actions, d.Renewal(), d.request, p, q);
  }
}
