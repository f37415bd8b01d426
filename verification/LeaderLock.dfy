/**
The leader lock (internal/infra/elasticsearch/leader/lock.go): any number of processes, each running
the loop CHECKER / PRETENDER / USURPER / LEADER over one lock document, at any interleaving.

One pass of a process's loop is three actions: Begin (take the state lock, read the clock), Serve
(the store handles the one request that the pass makes, or the request or its answer is lost) and
Finish (branch on the answer, set the next state and how long to sleep). Time passes only by Tick.
*/
module LeaderLock {
  import opened Wrappers
  import opened VersionedStore

  type Time = int
  type ProcessId = string

  datatype State = CHECKER | PRETENDER | USURPER | LEADER | STOPPED

  datatype LeaderData = LeaderData(leaderId: ProcessId, at: Time, lease: Time)

  /** There is one lock document. The cause recorded with each write is the time of its commit. */
  datatype LockKey = LockDoc

  type LockStore = Store<LockKey, LeaderData, Time>

  /** A process's copy of the lock document. */
  datatype LeaderInfo = LeaderInfo(version: Version, source: LeaderData)

  /** What the request of a pass comes to. NoStash: there was nothing to base a request on. */
  datatype Answer = Info(info: LeaderInfo) | Conflicted | NotFound | Failed | NoStash

  // ---- one pass of the loop ----

  /** The request that a process in the given state makes, handled by the store. */
  function Ask(store: LockStore, me: ProcessId, state: State, stash: Option<LeaderInfo>, lease: Time, at: Time,
               now: Time, fate: Fate)
    : (LockStore, Answer)
  {
    var data := LeaderData(me, at, lease);
    match state
    case CHECKER =>
      (store,
       if !fate.Served? then Failed
       else if LockDoc in store.live && store.live[LockDoc] < |store.log| then
         Info(LeaderInfo(store.live[LockDoc], store.log[store.live[LockDoc]].doc))
       else NotFound)
    case PRETENDER =>
      var (s, reply) := CreateIf(store, LockDoc, data, now, fate);
      (s, AnswerOf(reply, data))
    case LEADER =>
      if stash.None? then (store, NoStash)
      else
        var (s, reply) := IndexIf(store, LockDoc, stash.value.version, data, now, fate);
        (s, AnswerOf(reply, data))
    case USURPER =>
      if stash.None? then (store, NoStash)
      else
        var (s, reply) := IndexIf(store, LockDoc, stash.value.version, data, now, fate);
        (s, AnswerOf(reply, data))
    case STOPPED => (store, NoStash)
  }

  function AnswerOf(reply: Reply, data: LeaderData): Answer {
    match reply
    case Committed(v) => Info(LeaderInfo(v, data))
    case Conflict => Conflicted
    case Missing => NotFound
    case Errored => Failed
  }

  /** The next state, the next stash and the minimal length of the pass. */
  datatype Outcome = Outcome(state: State, stash: Option<LeaderInfo>, minWait: Time)

  function Respond(me: ProcessId, state: State, stash: Option<LeaderInfo>, answer: Answer, interval: Time): Outcome {
    match state
    case LEADER =>
      (match answer
       case NoStash => Outcome(CHECKER, stash, interval)
       case NotFound => Outcome(PRETENDER, None, 0)
       case Conflicted => Outcome(CHECKER, None, interval)
       case Failed => Outcome(CHECKER, None, interval)
       case Info(r) => Outcome(LEADER, Some(r), interval))
    case PRETENDER =>
      (match answer
       case Info(r) => Outcome(LEADER, Some(r), interval)
       case _ => Outcome(CHECKER, None, interval))
    case CHECKER =>
      (match answer
       case NotFound => Outcome(PRETENDER, None, 0)
       case Info(r) =>
         if r.source.leaderId == me then Outcome(LEADER, Some(r), 0)
         else Outcome(USURPER, Some(r), r.source.lease)
       case _ => Outcome(CHECKER, None, interval))
    case USURPER =>
      (match answer
       case NoStash => Outcome(CHECKER, stash, interval)
       case Conflicted => Outcome(CHECKER, None, interval)
       case NotFound => Outcome(PRETENDER, None, 0)
       case Failed => Outcome(CHECKER, None, interval)
       case Info(r) => Outcome(LEADER, Some(r), 0))
    case STOPPED => Outcome(STOPPED, stash, 0)
  }

  /** When the next pass may begin: the sleep fills the pass up to its minimal length. */
  function WakeTime(loopStart: Time, minWait: Time, now: Time): Time {
    if minWait > 0 && loopStart + minWait > now then loopStart + minWait else now
  }

  // ---- N processes ----

  datatype Phase = Sleeping | Calling(loopStart: Time) | Answered(loopStart: Time, answer: Answer)

  datatype Proc = Proc(state: State, stash: Option<LeaderInfo>, wakeAt: Time, phase: Phase, lease: Time, interval: Time)

  datatype System = System(store: LockStore, procs: map<ProcessId, Proc>, now: Time)

  datatype Action =
    | Tick(to: Time)
    | Begin(p: ProcessId)
    | Serve(p: ProcessId, at: Time, fate: Fate)
    | Finish(p: ProcessId)
    | Stop(p: ProcessId)
    | OutsideDelete
    | OutsideWrite(data: LeaderData)

  predicate Enabled(sys: System, a: Action) {
    match a
    case Tick(to) => to >= sys.now
    case Begin(p) =>
      p in sys.procs && sys.procs[p].phase.Sleeping? && sys.procs[p].state != STOPPED && sys.procs[p].wakeAt <= sys.now
    case Serve(p, _, _) => p in sys.procs && sys.procs[p].phase.Calling?
    case Finish(p) => p in sys.procs && sys.procs[p].phase.Answered?
    case Stop(p) => p in sys.procs && sys.procs[p].phase.Sleeping?
    case OutsideDelete => true
    case OutsideWrite(_) => true
  }

  function Step(sys: System, a: Action): System {
    if !Enabled(sys, a) then sys
    else
      match a
      case Tick(to) => sys.(now := to)
      case Begin(p) => sys.(procs := sys.procs[p := sys.procs[p].(phase := Calling(sys.now))])
      case Serve(p, at, fate) =>
        var q := sys.procs[p];
        var (store, answer) := Ask(sys.store, p, q.state, q.stash, q.lease, at, sys.now, fate);
        sys.(store := store, procs := sys.procs[p := q.(phase := Answered(q.phase.loopStart, answer))])
      case Finish(p) =>
        var q := sys.procs[p];
        var o := Respond(p, q.state, q.stash, q.phase.answer, q.interval);
        sys.(procs := sys.procs[p := q.(
          state := o.state, stash := o.stash, phase := Sleeping,
          wakeAt := WakeTime(q.phase.loopStart, o.minWait, sys.now))])
      case Stop(p) => sys.(procs := sys.procs[p := sys.procs[p].(state := STOPPED)])
      case OutsideDelete => sys.(store := sys.store.(live := sys.store.live - {LockDoc}))
      case OutsideWrite(data) => sys.(store := Put(sys.store, LockDoc, data, sys.now))
  }

  function Run(sys: System, actions: seq<Action>): System
    decreases actions
  {
    if actions == [] then sys else Run(Step(sys, actions[0]), actions[1..])
  }

  /** Processes that have just been started, each once. */
  ghost predicate FreshStart(sys: System) {
    && Valid(sys.store)
    && forall p :: p in sys.procs ==>
        sys.procs[p].state == CHECKER && sys.procs[p].stash == None && sys.procs[p].phase == Sleeping
  }

  // ---- fencing, whatever fails ----

  /** The copy says what the store held at its version. */
  ghost predicate Genuine(s: LockStore, info: LeaderInfo) {
    info.version < |s.log| && s.log[info.version].doc == info.source
  }

  ghost predicate ProcOk(s: LockStore, p: ProcessId, q: Proc) {
    && (q.state in {LEADER, USURPER} ==> q.stash.Some?)
    && (q.stash.Some? ==> Genuine(s, q.stash.value))
    && (q.state == LEADER ==> q.stash.value.source.leaderId == p)
    && (q.phase.Answered? ==>
          && q.phase.answer != NoStash
          && q.state != STOPPED
          && (q.phase.answer.Info? ==>
                && Genuine(s, q.phase.answer.info)
                && (q.state != CHECKER ==> q.phase.answer.info.source.leaderId == p)))
    && (q.phase.Calling? ==> q.state != STOPPED)
  }

  ghost predicate Inv(sys: System) {
    && Valid(sys.store)
    && forall p :: p in sys.procs ==> ProcOk(sys.store, p, sys.procs[p])
  }

  lemma AskKeepsGenuine(store: LockStore, me: ProcessId, state: State, stash: Option<LeaderInfo>, lease: Time, at: Time,
                        now: Time, fate: Fate)
    requires Valid(store)
    ensures var (s, answer) := Ask(store, me, state, stash, lease, at, now, fate);
      && Valid(s)
      && store.log <= s.log
      && (answer.Info? ==> Genuine(s, answer.info) && (state != CHECKER ==> answer.info.source.leaderId == me))
      && (answer == NoStash ==> state == STOPPED || (state in {LEADER, USURPER} && stash.None?))
  {
    PutKeepsValid(store, LockDoc, LeaderData(me, at, lease), now);
  }

  lemma ProcStaysOk(s: LockStore, s': LockStore, p: ProcessId, q: Proc)
    requires ProcOk(s, p, q) && s.log <= s'.log
    ensures ProcOk(s', p, q)
  {
  }

  lemma StepKeepsInv(sys: System, a: Action)
    requires Inv(sys)
    ensures Inv(Step(sys, a)) && sys.store.log <= Step(sys, a).store.log
  {
    var sys' := Step(sys, a);
    match a {
      case Serve(p, at, fate) =>
        if Enabled(sys, a) {
          var q := sys.procs[p];
          assert ProcOk(sys.store, p, q);
          AskKeepsGenuine(sys.store, p, q.state, q.stash, q.lease, at, sys.now, fate);
        }
      case OutsideDelete => DeleteKeepsValid(sys.store, LockDoc);
      case OutsideWrite(data) => PutKeepsValid(sys.store, LockDoc, data, sys.now);
      case _ =>
    }
    forall p | p in sys'.procs
      ensures ProcOk(sys'.store, p, sys'.procs[p])
    {
      assert ProcOk(sys.store, p, sys.procs[p]);
      ProcStaysOk(sys.store, sys'.store, p, sys.procs[p]);
    }
  }

  lemma {:induction false} RunKeepsInv(sys: System, actions: seq<Action>)
    requires Inv(sys)
    ensures Inv(Run(sys, actions))
    decreases actions
  {
    if actions != [] {
      StepKeepsInv(sys, actions[0]);
      RunKeepsInv(Step(sys, actions[0]), actions[1..]);
    }
  }

  /** In every run, with lost requests and answers and with outsiders deleting or rewriting the lock
      document: a LEADER holds the version of a document that named it, a USURPER holds a version, so the
      branches for a missing stash are dead, and of two LEADERs at most one can still renew. */
  lemma {:induction false} Fencing(sys: System, actions: seq<Action>, p: ProcessId, q: ProcessId)
    requires FreshStart(sys)
    requires p in Run(sys, actions).procs && q in Run(sys, actions).procs && p != q
    ensures var e := Run(sys, actions);
      && (e.procs[p].state in {LEADER, USURPER} ==> e.procs[p].stash.Some?)
      && (e.procs[p].phase.Answered? ==> e.procs[p].phase.answer != NoStash)
      && (e.procs[p].state == LEADER ==>
            && Genuine(e.store, e.procs[p].stash.value)
            && e.procs[p].stash.value.source.leaderId == p)
      && (e.procs[p].state == LEADER && e.procs[q].state == LEADER ==>
            && e.procs[q].stash.Some?
            && !(&& Holds(e.store, LockDoc, e.procs[p].stash.value.version)
                 && Holds(e.store, LockDoc, e.procs[q].stash.value.version)))
  {
    RunKeepsInv(sys, actions);
    var e := Run(sys, actions);
    assert ProcOk(e.store, p, e.procs[p]) && ProcOk(e.store, q, e.procs[q]);
  }

  // ---- one pass, in terms of the store ----

  /** Where a pass leads, whatever process runs it: to LEADER exactly when its write was accepted or the
      document it found names it, and then it holds the live document; to USURPER exactly when it found
      another's; to PRETENDER exactly when it was told that there is no document. A leader that cannot
      renew steps down. */
  lemma PassLeadsTo(sys: System, p: ProcessId, at: Time, fate: Fate)
    requires Inv(sys) && p in sys.procs && sys.procs[p].phase.Calling?
    ensures var q, live := sys.procs[p], LockDoc in sys.store.live;
      var e := Step(Step(sys, Serve(p, at, fate)), Finish(p));
      var granted :=
        if q.state == PRETENDER then !live else q.stash.Some? && Holds(sys.store, LockDoc, q.stash.value.version);
      && Inv(e) && p in e.procs
      && (live ==> sys.store.live[LockDoc] < |sys.store.log|)
      && (e.procs[p].state == LEADER <==>
            fate.Served? &&
            if q.state == CHECKER then live && sys.store.log[sys.store.live[LockDoc]].doc.leaderId == p else granted)
      && (e.procs[p].state == USURPER <==>
            q.state == CHECKER && fate.Served? && live && sys.store.log[sys.store.live[LockDoc]].doc.leaderId != p)
      && (e.procs[p].state == PRETENDER <==>
            fate.Served? && !live && (q.state == CHECKER || (q.state != PRETENDER && fate.absentIsMissing)))
      && (e.procs[p].state in {LEADER, USURPER} ==>
            && e.procs[p].stash.Some? && Holds(e.store, LockDoc, e.procs[p].stash.value.version))
      && (e.procs[p].state == LEADER && q.state != CHECKER ==>
            e.procs[p].stash.value.source == LeaderData(p, at, q.lease))
      && (e.procs[p].state == USURPER && q.phase.loopStart <= sys.now ==>
            e.procs[p].wakeAt >= q.phase.loopStart + e.procs[p].stash.value.source.lease)
  {
    var e1 := Step(sys, Serve(p, at, fate));
    StepKeepsInv(sys, Serve(p, at, fate));
    StepKeepsInv(e1, Finish(p));
    assert ProcOk(sys.store, p, sys.procs[p]) && ProcOk(e1.store, p, e1.procs[p]);
    assert LockDoc in sys.store.live ==> LiveOk(sys.store, LockDoc);
    hide Valid, Inv, Genuine;
  }

  /** When the next pass may begin, for every state that a pass can start and end in: at once after it was told
      that there is no document, after it found itself named, and after it usurped; when the lease of the
      document has passed, counted from the start of the pass, after it found another's; and when its interval has
      passed, renewals included, otherwise. A pass that took longer is followed at once. */
  lemma WakesWhen(sys: System, p: ProcessId)
    requires Inv(sys) && Enabled(sys, Finish(p)) && sys.procs[p].phase.loopStart <= sys.now
    ensures var q := sys.procs[p];
      var e := Step(sys, Finish(p)).procs[p];
      var atOnce := e.state == PRETENDER || (e.state == LEADER && q.state in {CHECKER, USURPER});
      && e.phase == Sleeping
      && (e.stash.Some? <==> e.state in {LEADER, USURPER})
      && var due := q.phase.loopStart + if e.state == USURPER then e.stash.value.source.lease else q.interval;
         e.wakeAt == if atOnce || due <= sys.now then sys.now else due
  {
    assert ProcOk(sys.store, p, sys.procs[p]);
    hide Valid, Genuine;
  }
}
