/**
The loop of one process, as it is written: `state` and `stashedDoc` are fields that each pass updates
under the state lock, and a pass ends with a sleep. Proved against Ask, Respond and WakeTime of
LeaderLock, so a pass is exactly one Begin, Serve, Finish of the N-process machine.
*/
module EsLocks {
  import opened Wrappers
  import opened VersionedStore
  import opened LeaderLock

  /** A write by somebody else. */
  datatype OtherWrite = OtherPut(data: LeaderData) | OtherDelete

  function Others(store: LockStore, writes: seq<OtherWrite>, now: Time): LockStore
    decreases writes
  {
    if writes == [] then store
    else
      match writes[0]
      case OtherPut(data) => Others(Put(store, LockDoc, data, now), writes[1..], now)
      case OtherDelete => Others(store.(live := store.live - {LockDoc}), writes[1..], now)
  }

  /** What surrounds one pass: what others write first, when the request is stamped and handled, its
      fate, when the answer arrives, and whether Stop was called before the pass. */
  datatype Turn = Turn(stop: bool, others: seq<OtherWrite>, requestDelay: nat, at: Time, fate: Fate, answerDelay: nat)

  /** The process, the store and the clock. */
  datatype View = View(store: LockStore, state: State, stash: Option<LeaderInfo>, now: Time)

  /** One turn of the loop of process `me`. */
  function AfterTurn(me: ProcessId, lease: Time, interval: Time, v: View, t: Turn): View {
    if v.state == STOPPED || t.stop then v.(state := STOPPED)
    else
      var served := v.now + t.requestDelay;
      var (store, answer) := Ask(Others(v.store, t.others, v.now), me, v.state, v.stash, lease, t.at, served, t.fate);
      var o := Respond(me, v.state, v.stash, answer, interval);
      View(store, o.state, o.stash, WakeTime(v.now, o.minWait, served + t.answerDelay))
  }

  function AfterTurns(me: ProcessId, lease: Time, interval: Time, v: View, turns: seq<Turn>): View
    decreases turns
  {
    if turns == [] then v else AfterTurns(me, lease, interval, AfterTurn(me, lease, interval, v, turns[0]), turns[1..])
  }

  lemma {:induction false} TurnsSnoc(me: ProcessId, lease: Time, interval: Time, v: View, turns: seq<Turn>, t: Turn)
    ensures AfterTurns(me, lease, interval, v, turns + [t]) ==
      AfterTurn(me, lease, interval, AfterTurns(me, lease, interval, v, turns), t)
    decreases turns
  {
    if turns == [] {
      assert turns + [t] == [t];
      assert AfterTurns(me, lease, interval, AfterTurn(me, lease, interval, v, t), []) ==
               AfterTurn(me, lease, interval, v, t);
    } else {
      assert (turns + [t])[1..] == turns[1..] + [t];
      TurnsSnoc(me, lease, interval, AfterTurn(me, lease, interval, v, turns[0]), turns[1..], t);
    }
  }

  lemma {:induction false} StoppedStays(me: ProcessId, lease: Time, interval: Time, v: View, turns: seq<Turn>)
    requires v.state == STOPPED
    ensures AfterTurns(me, lease, interval, v, turns) == v
    decreases turns
  {
    if turns != [] { StoppedStays(me, lease, interval, v, turns[1..]); }
  }

  lemma {:induction false} TurnsSplit(me: ProcessId, lease: Time, interval: Time, v: View, turns: seq<Turn>, i: nat)
    requires i <= |turns|
    ensures AfterTurns(me, lease, interval, v, turns) ==
      AfterTurns(me, lease, interval, AfterTurns(me, lease, interval, v, turns[..i]), turns[i..])
    decreases i
  {
    if i > 0 {
      assert turns[1..][..i - 1] == turns[..i][1..] && turns[1..][i - 1..] == turns[i..];
      TurnsSplit(me, lease, interval, AfterTurn(me, lease, interval, v, turns[0]), turns[1..], i - 1);
    }
  }

  /** Writes by somebody else, as actions of the N-process machine. */
  function OutsideActions(writes: seq<OtherWrite>): seq<Action> {
    if writes == [] then []
    else [if writes[0].OtherPut? then OutsideWrite(writes[0].data) else OutsideDelete] + OutsideActions(writes[1..])
  }

  lemma {:induction false} OutsideRun(sys: System, writes: seq<OtherWrite>)
    ensures Run(sys, OutsideActions(writes)) == sys.(store := Others(sys.store, writes, sys.now))
    decreases writes
  {
    if writes != [] {
      var a := OutsideActions(writes)[0];
      assert OutsideActions(writes) == [a] + OutsideActions(writes[1..]);
      RunAppend(sys, [a], OutsideActions(writes[1..]));
      RunSingle(sys, a);
      OutsideRun(Step(sys, a), writes[1..]);
    }
  }

  lemma {:induction false} RunAppend(sys: System, a: seq<Action>, b: seq<Action>)
    ensures Run(sys, a + b) == Run(Run(sys, a), b)
    decreases a
  {
    if a == [] {
      assert a + b == b;
    } else {
      assert (a + b)[1..] == a[1..] + b;
      RunAppend(Step(sys, a[0]), a[1..], b);
    }
  }

  lemma {:induction false} RunSingle(sys: System, a: Action)
    ensures Run(sys, [a]) == Step(sys, a)
  {
    assert Run(Step(sys, a), []) == Step(sys, a);
  }

  /** The actions that one turn amounts to: a stop, or a pass with what others write in it. */
  function TurnActions(p: ProcessId, now: Time, t: Turn): seq<Action> {
    if t.stop then [Stop(p)]
    else
      [Begin(p)] + (OutsideActions(t.others) +
      [Tick(now + t.requestDelay), Serve(p, t.at, t.fate), Tick(now + t.requestDelay + t.answerDelay), Finish(p)])
  }

  /** The loop refines the machine: from a process that sleeps no longer, a turn leads to the state,
      stash, wake-up time and store that these actions lead to. */
  lemma {:induction false} TurnIsPass(sys: System, p: ProcessId, t: Turn)
    requires p in sys.procs && sys.procs[p].phase == Sleeping && sys.procs[p].state != STOPPED
    requires sys.procs[p].wakeAt <= sys.now
    ensures var q := sys.procs[p];
      var v := AfterTurn(p, q.lease, q.interval, View(sys.store, q.state, q.stash, sys.now), t);
      var sys' := Run(sys, TurnActions(p, sys.now, t));
      && sys'.store == v.store
      && sys'.procs ==
          sys.procs[p := q.(state := v.state, stash := v.stash, wakeAt := if t.stop then q.wakeAt else v.now)]
  {
    hide Others, Ask, Respond, WakeTime, OutsideActions;
    var q := sys.procs[p];
    if t.stop {
      RunSingle(sys, Stop(p));
    } else {
      var rest := [Tick(sys.now + t.requestDelay), Serve(p, t.at, t.fate),
                   Tick(sys.now + t.requestDelay + t.answerDelay), Finish(p)];
      var s1 := Step(sys, Begin(p));
      RunAppend(sys, [Begin(p)], OutsideActions(t.others) + rest);
      RunSingle(sys, Begin(p));
      RunAppend(s1, OutsideActions(t.others), rest);
      OutsideRun(s1, t.others);
      ServeAndFinish(sys, s1.(store := Others(sys.store, t.others, sys.now)), p, t, rest);
    }
  }

  /** The rest of a pass that has begun. */
  lemma {:induction false} ServeAndFinish(sys: System, s1: System, p: ProcessId, t: Turn, rest: seq<Action>)
    requires p in sys.procs && sys.procs[p].state != STOPPED && !t.stop
    requires s1 == System(Others(sys.store, t.others, sys.now),
               sys.procs[p := sys.procs[p].(phase := Calling(sys.now))], sys.now)
    requires sys.procs[p].phase == Sleeping
    requires rest == [Tick(sys.now + t.requestDelay), Serve(p, t.at, t.fate),
                      Tick(sys.now + t.requestDelay + t.answerDelay), Finish(p)]
    ensures var q := sys.procs[p];
      var v := AfterTurn(p, q.lease, q.interval, View(sys.store, q.state, q.stash, sys.now), t);
      var sys' := Run(s1, rest);
      sys'.store == v.store && sys'.procs == sys.procs[p := q.(state := v.state, stash := v.stash, wakeAt := v.now)]
  {
    hide Others, Ask, Respond;
    var s2 := Step(s1, rest[0]);
    var s3 := Step(s2, rest[1]);
    var s4 := Step(s3, rest[2]);
    var s5 := Step(s4, rest[3]);
    RunFour(s1, rest);
    assert s3.procs[p].phase.Answered?;
    assert s5.procs == sys.procs[p := s5.procs[p]];
  }

  lemma {:induction false} RunFour(sys: System, a: seq<Action>)
    requires |a| == 4
    ensures Run(sys, a) == Step(Step(Step(Step(sys, a[0]), a[1]), a[2]), a[3])
  {
    var s1 := Step(sys, a[0]);
    var s2 := Step(s1, a[1]);
    var s3 := Step(s2, a[2]);
    assert Run(sys, a) == Run(s1, a[1..]);
    assert Run(s1, a[1..]) == Run(s2, a[2..]) by { assert a[1..][1..] == a[2..]; }
    assert Run(s2, a[2..]) == Run(s3, a[3..]) by { assert a[2..][1..] == a[3..]; }
    assert Run(s3, a[3..]) == Step(s3, a[3]) by { assert a[3..][1..] == []; }
  }

  /** There is a live lock document. */
  predicate HasDoc(store: LockStore) { LockDoc in store.live && store.live[LockDoc] < |store.log| }

  /** What a read answers: a genuine copy of the live document if it is served and there is one. */
  ghost predicate Found(store: LockStore, answer: Answer, fate: Fate) {
    && (answer.Info? <==> fate.Served? && HasDoc(store))
    && (answer.Info? ==> Holds(store, LockDoc, answer.info.version) && Genuine(store, answer.info))
    && (answer.NotFound? <==> fate.Served? && !HasDoc(store))
    && (answer.Failed? <==> !fate.Served?)
  }

  /** What a write does: if it takes effect, exactly one document has been written, which is the given one
      and is live now, and replaces whichever was; if not, nothing has changed. */
  ghost predicate Named(before: LockStore, after: LockStore, wrote: bool, data: LeaderData, now: Time) {
    if wrote then
      && |after.log| == |before.log| + 1 && before.log <= after.log
      && after.log[|before.log|] ==
         Entry(LockDoc, data, if LockDoc in before.live then Some(before.live[LockDoc]) else None, now)
      && after.live == before.live[LockDoc := |before.log|]
    else after == before
  }

  /** What its writer is told: that the document is live under the returned version exactly if it was
      granted and the answer arrives; that there is none, or another one, if it was not. */
  ghost predicate Told(after: LockStore, answer: Answer, granted: bool, gone: bool, data: LeaderData, fate: Fate) {
    && (answer.Info? <==> granted && fate.Served?)
    && (answer.Info? ==>
          Holds(after, LockDoc, answer.info.version) && Genuine(after, answer.info) && answer.info.source == data)
    && (answer.NotFound? <==> !granted && gone)
    && (answer.Conflicted? <==> !granted && !gone && fate.Served?)
    && (answer.Failed? <==> !fate.Served?)
  }

  lemma FoundIsAsk(store: LockStore, me: ProcessId, stash: Option<LeaderInfo>, lease: Time, at: Time, now: Time,
                   fate: Fate, answer: Answer)
    requires Found(store, answer, fate)
    ensures (store, answer) == Ask(store, me, CHECKER, stash, lease, at, now, fate)
  {
  }

  lemma SubmittedIsAsk(before: LockStore, me: ProcessId, stash: Option<LeaderInfo>, lease: Time, at: Time, now: Time,
                       fate: Fate, after: LockStore, answer: Answer)
    requires Named(before, after, LockDoc !in before.live && !fate.Dropped?, LeaderData(me, at, lease), now)
    requires Told(after, answer, LockDoc !in before.live, false, LeaderData(me, at, lease), fate)
    ensures (after, answer) == Ask(before, me, PRETENDER, stash, lease, at, now, fate)
  {
    NamedIsPut(before, after, LockDoc !in before.live && !fate.Dropped?, LeaderData(me, at, lease), now);
  }

  lemma JostledIsAsk(before: LockStore, me: ProcessId, state: State, stash: LeaderInfo, lease: Time, at: Time,
                     now: Time, fate: Fate, after: LockStore, answer: Answer)
    requires state in {LEADER, USURPER}
    requires var granted, gone := Holds(before, LockDoc, stash.version), LockDoc !in before.live;
      && Named(before, after, granted && !fate.Dropped?, LeaderData(me, at, lease), now)
      && Told(after, answer, granted, gone && fate.Served? && fate.absentIsMissing, LeaderData(me, at, lease), fate)
    ensures (after, answer) == Ask(before, me, state, Some(stash), lease, at, now, fate)
  {
    NamedIsPut(before, after, Holds(before, LockDoc, stash.version) && !fate.Dropped?, LeaderData(me, at, lease), now);
  }

  lemma NoStashAsk(store: LockStore, me: ProcessId, state: State, lease: Time, at: Time, now: Time, fate: Fate)
    requires state in {LEADER, USURPER}
    ensures Ask(store, me, state, None, lease, at, now, fate) == (store, NoStash)
  {
  }

  lemma NamedIsPut(before: LockStore, after: LockStore, wrote: bool, data: LeaderData, now: Time)
    requires Named(before, after, wrote, data, now)
    ensures after == if wrote then Put(before, LockDoc, data, now) else before
  {
    if wrote { assert after.log == before.log + [after.log[|before.log|]]; }
  }

  /** The index of lock documents, with the clock of the machine that talks to it. */
  class LockIndex {
    var store: LockStore
    var now: Time

    constructor (store: LockStore, now: Time)
      ensures this.store == store && this.now == now
    {
      this.store, this.now := store, now;
    }

    method Interfere(writes: seq<OtherWrite>)
      modifies this`store
      ensures store == Others(old(store), writes, now)
    {
      store := Others(store, writes, now);
    }

    method Wait(d: nat)
      modifies this`now
      ensures now == old(now) + d
    {
      now := now + d;
    }
  }

  class EsLock {
    const processId: ProcessId
    const leaderLockLease: Time
    const loopInterval: Time
    var state: State
    var stashedDoc: Option<LeaderInfo>

    constructor (processId: ProcessId, lease: Time, interval: Time)
      ensures state == CHECKER && stashedDoc == None
      ensures this.processId == processId && leaderLockLease == lease && loopInterval == interval
    {
      this.processId, leaderLockLease, loopInterval := processId, lease, interval;
      state, stashedDoc := CHECKER, None;
    }

    predicate IsLeader()
      reads this
    {
      state == LEADER
    }

    method Stop()
      modifies this`state
      ensures state == STOPPED && !IsLeader()
    {
      state := STOPPED;
    }

    /** What this process writes when it names itself. */
    function MyData(at: Time): LeaderData { LeaderData(processId, at, leaderLockLease) }

    method GetLeaderDoc(index: LockIndex, fate: Fate) returns (answer: Answer)
      ensures Found(index.store, answer, fate)
    {
      if !fate.Served? { return Failed; }
      if LockDoc in index.store.live && index.store.live[LockDoc] < |index.store.log| {
        var v := index.store.live[LockDoc];
        return Info(LeaderInfo(v, index.store.log[v].doc));
      }
      answer := NotFound;
    }

    method SubmitNameForLeader(index: LockIndex, at: Time, fate: Fate) returns (answer: Answer)
      modifies index`store
      ensures var free := LockDoc !in old(index.store.live);
        && Named(old(index.store), index.store, free && !fate.Dropped?, MyData(at), index.now)
        && Told(index.store, answer, free, false, MyData(at), fate)
    {
      var (store, reply) := CreateIf(index.store, LockDoc, MyData(at), index.now, fate);
      index.store := store;
      answer := AnswerOf(reply, MyData(at));
    }

    method JostleForLeader(index: LockIndex, stash: LeaderInfo, at: Time, fate: Fate) returns (answer: Answer)
      modifies index`store
      ensures var granted, gone := Holds(old(index.store), LockDoc, stash.version), LockDoc !in old(index.store.live);
        && Named(old(index.store), index.store, granted && !fate.Dropped?, MyData(at), index.now)
        && Told(index.store, answer, granted, gone && fate.Served? && fate.absentIsMissing, MyData(at), fate)
    {
      var (store, reply) := IndexIf(index.store, LockDoc, stash.version, MyData(at), index.now, fate);
      index.store := store;
      answer := AnswerOf(reply, MyData(at));
    }

    /** The body of the loop, from `top:` to `goto top`. */
    method Pass(index: LockIndex, t: Turn)
      requires state != STOPPED && !t.stop
      modifies this, index
      ensures View(index.store, state, stashedDoc, index.now) ==
        AfterTurn(processId, leaderLockLease, loopInterval, old(View(index.store, state, stashedDoc, index.now)), t)
    {
      hide Ask, Named, Others, Genuine;
      var loopStartTime := index.now;
      var loopMinWait := loopInterval;
      index.Interfere(t.others);
      index.Wait(t.requestDelay);
      ghost var store, stash, served := index.store, stashedDoc, index.now;

      match state {
        case LEADER =>
          if stashedDoc.Some? {
            var answer := JostleForLeader(index, stashedDoc.value, t.at, t.fate);
            JostledIsAsk(
              store, processId, state, stash.value, leaderLockLease, t.at, served, t.fate, index.store, answer);
            match answer {
              case NotFound =>
                loopMinWait := 0;
                stashedDoc := None;
                state := PRETENDER;
              case Info(r) =>
                stashedDoc := Some(r);
                state := LEADER;
              case Conflicted | Failed =>
                stashedDoc := None;
                state := CHECKER;
            }
          } else {
            NoStashAsk(store, processId, state, leaderLockLease, t.at, served, t.fate);
            state := CHECKER;
          }
        case PRETENDER =>
          var answer := SubmitNameForLeader(index, t.at, t.fate);
          SubmittedIsAsk(store, processId, stash, leaderLockLease, t.at, served, t.fate, index.store, answer);
          match answer {
            case Info(r) =>
              stashedDoc := Some(r);
              state := LEADER;
            case Conflicted | Failed =>
              stashedDoc := None;
              state := CHECKER;
          }
        case CHECKER =>
          var answer := GetLeaderDoc(index, t.fate);
          FoundIsAsk(store, processId, stash, leaderLockLease, t.at, served, t.fate, answer);
          match answer {
            case NotFound =>
              loopMinWait := 0;
              stashedDoc := None;
              state := PRETENDER;
            case Info(r) =>
              stashedDoc := Some(r);
              if r.source.leaderId == processId {
                loopMinWait := 0;
                state := LEADER;
              } else {
                loopMinWait := r.source.lease;
                state := USURPER;
              }
            case Failed =>
              stashedDoc := None;
              state := CHECKER;
          }
        case USURPER =>
          if stashedDoc.Some? {
            var answer := JostleForLeader(index, stashedDoc.value, t.at, t.fate);
            JostledIsAsk(
              store, processId, state, stash.value, leaderLockLease, t.at, served, t.fate, index.store, answer);
            match answer {
              case NotFound =>
                loopMinWait := 0;
                stashedDoc := None;
                state := PRETENDER;
              case Info(r) =>
                loopMinWait := 0;
                stashedDoc := Some(r);
                state := LEADER;
              case Conflicted | Failed =>
                stashedDoc := None;
                state := CHECKER;
            }
          } else {
            NoStashAsk(store, processId, state, leaderLockLease, t.at, served, t.fate);
            state := CHECKER;
          }
      }

      index.Wait(t.answerDelay);
      if loopMinWait > 0 {
        var waitTime := loopMinWait - (index.now - loopStartTime);
        if waitTime > 0 { index.Wait(waitTime); }
      }
    }

    /** The loop, for as many turns as are given or until the process is stopped. */
    method Loop(index: LockIndex, turns: seq<Turn>)
      modifies this, index
      ensures View(index.store, state, stashedDoc, index.now) ==
        AfterTurns(
          processId, leaderLockLease, loopInterval, old(View(index.store, state, stashedDoc, index.now)), turns)
    {
      ghost var start := View(index.store, state, stashedDoc, index.now);
      var i := 0;
      while i < |turns| && state != STOPPED
        invariant 0 <= i <= |turns|
        invariant View(index.store, state, stashedDoc, index.now) ==
          AfterTurns(processId, leaderLockLease, loopInterval, start, turns[..i])
      {
        TurnsSnoc(processId, leaderLockLease, loopInterval, start, turns[..i], turns[i]);
        assert turns[..i + 1] == turns[..i] + [turns[i]];
        if turns[i].stop { Stop(); } else { Pass(index, turns[i]); }
        i := i + 1;
      }
      TurnsSplit(processId, leaderLockLease, loopInterval, start, turns, i);
      if state == STOPPED {
        ghost var v := View(index.store, state, stashedDoc, index.now);
        StoppedStays(processId, leaderLockLease, loopInterval, v, turns[i..]);
      }
    }
  }
}
