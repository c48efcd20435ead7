/** Where the executor can get: a flush that returns too early, from the start, and a terminate that returns. */
module ExecutorPaths {

  import opened Executor

  // ---------------------------------------------------------------- Reachable states

  ghost predicate Reached(s: State) {
    exists run: seq<State> :: IsRun(run) && run[|run| - 1] == s
  }

  lemma ReachedBy(s: State, e: State)
    requires Reached(s) && Step(s, e)
    ensures Reached(e)
  {
    var run: seq<State> :| IsRun(run) && run[|run| - 1] == s;
    var longer := run + [e];
    forall i | 0 <= i < |longer| - 1
      ensures Step(longer[i], longer[i + 1])
    {
      if i < |run| - 1 {
        assert Step(run[i], run[i + 1]);
      }
    }
    hide Step;
    assert IsRun(longer) && longer[|longer| - 1] == e;
  }

  lemma WorkerReaches(s: State, c: Core) returns (e: State)
    requires Reached(s) && WorkerStep(s.core, c)
    ensures Reached(e) && e == s.(core := c)
  {
    e := s.(core := c);
    ReachedBy(s, e);
  }

  lemma ClientReaches(s: State, e: State, t: ThreadId)
    requires Reached(s) && t in s.clients && ClientStep(s, e, t)
    ensures Reached(e)
  {
    ReachedBy(s, e);
  }

  lemma InnerReaches(s: State, c: Core, pc: ClientPc, t: ThreadId) returns (e: State)
    requires Reached(s) && t in s.clients && !s.clients[t].Idle? && !AtEntry(s.clients[t]) && !AtExit(s.clients[t])
    requires InnerStep(s.core, s.clients[t], t, c, pc)
    ensures Reached(e) && e == State(c, s.enqueueLock, s.clients[t := pc])
  {
    e := State(c, s.enqueueLock, s.clients[t := pc]);
    ClientReaches(s, e, t);
  }

  /** A thread begins a call and passes the enqueue lock. */
  lemma CallReaches(s: State, t: ThreadId, pc: ClientPc) returns (e: State)
    requires Reached(s) && t in s.clients && s.clients[t].Idle? && s.enqueueLock == Unheld && Begins(pc) && AtEntry(pc)
    ensures Reached(e) && e == State(s.core, Held(t, 1), s.clients[t := Entering(pc)])
  {
    var called := State(s.core, Unheld, s.clients[t := pc]);
    ClientReaches(s, called, t);
    e := State(s.core, Held(t, 1), called.clients[t := Entering(pc)]);
    ClientReaches(called, e, t);
    assert s.clients[t := pc][t := Entering(pc)] == s.clients[t := Entering(pc)];
  }

  lemma PushReaches(s: State, t: ThreadId, job: Job) returns (e: State)
    requires Reached(s) && s.clients == map[t := Idle] && s.enqueueLock == Unheld
    requires !s.core.shouldTerminate && s.core.executorLock == Free
    ensures Reached(e) && e == s.(core := s.core.(jobs := s.core.jobs + [job], accepted := s.core.accepted + [job]))
  {
    e := CallReaches(s, t, PushEnter(job));
    e := InnerReaches(e, e.core, PushLock(job), t);
    e := InnerReaches(e, e.core.(executorLock := ByClient(t)), PushAppend(job), t);
    e := InnerReaches(e, e.core.(jobs := e.core.jobs + [job], accepted := e.core.accepted + [job]), PushUnlock, t);
    e := InnerReaches(e, e.core.(executorLock := Free), PushLeave, t);
    var back := State(e.core, Unheld, map[t := Idle]);
    assert back.clients == e.clients[t := Idle];
    ClientReaches(e, back, t);
    e := back;
  }

  /** The worker from the head of its loop past its look at the queue, with the one job that is there. */
  lemma WorkerTakesOne(s: State) returns (e: State)
    requires Reached(s) && s.core.worker == Loop && s.core.executorLock == Free && !s.core.shouldTerminate
    requires |s.core.jobs| == 1 && s.core.batch == []
    ensures Reached(e) && e == s.(core := s.core.(worker := Test, batch := s.core.jobs, jobs := []))
  {
    e := WorkerReaches(s, s.core.(worker := Lock));
    e := WorkerReaches(e, e.core.(executorLock := ByWorker, worker := Wait));
    e := WorkerReaches(e, e.core.(worker := Check));
    e := WorkerReaches(e, e.core.(worker := Move));
    e := WorkerReaches(e, e.core.(batch := e.core.batch + [e.core.jobs[0]], jobs := e.core.jobs[1..]));
    assert e.core.batch == s.core.jobs && e.core.jobs == [];
    e := WorkerReaches(e, e.core.(worker := Unlock));
    e := WorkerReaches(e, e.core.(executorLock := Free, worker := Test));
  }

  /** A job comes when the worker has just taken another, and a flush raises its flag before the worker is back. */
  lemma RaisesBehindWorker(t: ThreadId, a: Job, b: Job) returns (e: State)
    ensures Reached(e) && InFlush(e, t) && e.clients[t].stage.Raise? && !Settled(e.core)
  {
    e := State(Start, Unheld, map[t := Idle]);
    assert IsRun([e]);
    e := PushReaches(e, t, a);
    e := WorkerTakesOne(e);
    e := PushReaches(e, t, b);
    e := CallReaches(e, t, Flushing(Enter, Flush(false, 1, false, 0, false)));
    e := InnerReaches(e, e.core.(executorLock := ByClient(t)), Flushing(Raise, e.clients[t].call), t);
  }

  lemma WalkReaches(s: State, e: State, t: ThreadId)
    requires Reached(s) && Walk(s, e, t)
    ensures Reached(e)
  {
    var path: seq<State> :| FlushPath(path, s, t) && path[|path| - 1] == e;
    PathReaches(path, |path| - 1);
  }

  lemma {:induction false} PathReaches(path: seq<State>, i: nat)
    requires IsPath(path) && i < |path| && Reached(path[0])
    ensures Reached(path[i])
  {
    if i > 0 {
      PathReaches(path, i - 1);
      assert Step(path[i - 1], path[i - 1 + 1]);
      ReachedBy(path[i - 1], path[i]);
    }
  }

  /** There is a run, from the start, in which a flush returns in time and an accepted job has not run. */
  lemma FlushEscapes(t: ThreadId, a: Job, b: Job) returns (run: seq<State>)
    ensures IsRun(run)
    ensures var e := run[|run| - 1];
            t in e.clients && ReturnsInTime(e.clients[t]) && e.core.executed < e.core.accepted
  {
    var s := RaisesBehindWorker(t, a, b);
    var before: seq<State> :| IsRun(before) && before[|before| - 1] == s;
    RunKeepsInv(before, |before| - 1);
    var e := FlushMayEscape(s, t);
    WalkReaches(s, e, t);
    run :| IsRun(run) && run[|run| - 1] == e;
    RunKeepsInv(run, |run| - 1);
    ExecutedWithinAccepted(e);
  }

  // ---------------------------------------------------------------- Terminate returns

  /** How far the worker is from its end once termination is requested and the queue is empty. */
  function StepsLeft(c: Core): nat {
    match c.worker
    case Lock => 13
    case Sleep => 13
    case Wait => 12
    case Check => 11
    case Move => 10
    case Unlock => 9
    case Test => 8
    case Running(next) => if next <= |c.batch| then 9 + |c.batch| - next else 9
    case ClearBatch => 8
    case Flag => 7
    case FlagLock => 6
    case Reset => 5
    case Fulfil => 4
    case Release => 3
    case Loop => 2
    case Clear => 1
    case Done => 0
  }

  /** The worker can take a step towards its end. */
  lemma NextToEnd(c: Core) returns (c': Core)
    requires c.shouldTerminate && c.jobs == [] && !c.worker.Done?
    requires !c.executorLock.ByClient? && (c.executorLock == ByWorker <==> WorkerHolds(c.worker))
    ensures WorkerStep(c, c') && StepsLeft(c') < StepsLeft(c)
  {
    match c.worker
    case Loop => c' := c.(worker := Clear);
    case Lock => c' := c.(executorLock := ByWorker, worker := Wait);
    case Wait => c' := c.(worker := Check);
    case Sleep => c' := c.(executorLock := ByWorker, worker := Wait);
    case Check => c' := c.(worker := Unlock);
    case Move => c' := c.(worker := Unlock);
    case Unlock => c' := c.(executorLock := Free, worker := Test);
    case Test => c' := c.(worker := Flag);
    case Running(next) =>
      c' := if next < |c.batch| then c.(executed := c.executed + [c.batch[next]], worker := Running(next + 1))
            else c.(worker := ClearBatch);
    case ClearBatch => c' := c.(batch := [], worker := Flag);
    case Flag => c' := c.(worker := if c.flushingJobs then FlagLock else Loop);
    case FlagLock => c' := c.(executorLock := ByWorker, worker := Reset);
    case Reset => c' := c.(flushingJobs := false, worker := Fulfil);
    case Fulfil => c' := c.(promises := Fulfilled(c.promises), worker := Release);
    case Release => c' := c.(executorLock := Free, worker := Loop);
    case Clear => c' := c.(jobs := [], discarded := c.jobs + c.discarded, worker := Done);
  }

  lemma JoinerIsOwner(s: State, t: ThreadId)
    requires Inv(s) && t in s.clients && s.clients[t].TermJoin?
    ensures Owner(s) == s.clients[t]
    ensures s.core.shouldTerminate && s.core.jobs == [] && !s.core.executorLock.ByClient?
    ensures s.core.executorLock == ByWorker <==> WorkerHolds(s.core.worker)
  {
  }

  /** A path of steps of the worker alone. */
  ghost predicate WorkerPath(path: seq<State>) {
    IsPath(path) && forall i :: 0 <= i < |path| ==> path[i] == path[0].(core := path[i].core)
  }

  lemma {:induction false} WorkerEnds(s: State, t: ThreadId) returns (path: seq<State>)
    requires Inv(s) && t in s.clients && s.clients[t].TermJoin?
    ensures WorkerPath(path) && path[0] == s && path[|path| - 1].core.worker.Done?
    decreases StepsLeft(s.core)
  {
    if s.core.worker.Done? {
      path := [s];
    } else {
      JoinerIsOwner(s, t);
      var c := NextToEnd(s.core);
      var next := s.(core := c);
      StepKeepsInv(s, next);
      var rest := WorkerEnds(next, t);
      path := [s] + rest;
      PathFrom(s, rest);
    }
  }

  lemma PathFrom(s: State, rest: seq<State>)
    requires WorkerPath(rest) && Step(s, rest[0]) && rest[0] == s.(core := rest[0].core)
    ensures WorkerPath([s] + rest)
  {
    var path := [s] + rest;
    forall i | 0 <= i < |path| - 1 ensures Step(path[i], path[i + 1]) {
      if i > 0 {
        assert Step(rest[i - 1], rest[i - 1 + 1]);
      }
    }
    hide Step;
  }

  /** From every reachable state in which terminate waits for the worker, the worker alone can get to its end, and
      then terminate can return. */
  lemma TerminateCanReturn(run: seq<State>, t: ThreadId) returns (path: seq<State>)
    requires IsRun(run) && t in run[|run| - 1].clients && run[|run| - 1].clients[t].TermJoin?
    ensures WorkerPath(path) && path[0] == run[|run| - 1]
    ensures var e := path[|path| - 1];
            && t in e.clients && e.clients[t].TermJoin? && e.core.worker.Done?
            && ClientStep(e, e.(clients := e.clients[t := TermLeave(e.clients[t].gaveUp)]), t)
  {
    RunKeepsInv(run, |run| - 1);
    path := WorkerEnds(run[|run| - 1], t);
    var e := path[|path| - 1];
    assert e == path[0].(core := e.core);
  }
  // ---------------------------------------------------------------- A flush can return in time

  /** How far the worker is from the fulfilment of a promise that it owes. */
  function AnswersIn(c: Core): nat {
    var work := |c.batch| + 2 * |c.jobs|;
    match c.worker
    case Release => 14 + work
    case Loop => 13 + work
    case Lock => 12 + work
    case Sleep => 12 + work
    case Wait => 11 + work
    case Check => 10 + work
    case Move => 9 + work
    case Unlock => 8 + |c.batch|
    case Test => 7 + |c.batch|
    case Running(next) => if next <= |c.batch| then 6 + |c.batch| - next else 6
    case ClearBatch => 5
    case Flag => 4
    case FlagLock => 3
    case Reset => 2
    case Fulfil => 1
    case _ => 0
  }

  /** A worker that owes an answer can take a step towards it. */
  lemma NextToAnswer(c: Core) returns (c': Core)
    requires !c.shouldTerminate && BatchInv(c) && CountInv(c) && !Kept(c)
    requires c.flushingJobs || c.worker.Fulfil?
    requires !c.executorLock.ByClient? && (c.executorLock == ByWorker <==> WorkerHolds(c.worker))
    ensures WorkerStep(c, c') && |c'.promises| == |c.promises| && !c'.shouldTerminate
    ensures Kept(c') || AnswersIn(c') < AnswersIn(c)
  {
    match c.worker
    case Loop => c' := c.(worker := Lock);
    case Lock => c' := c.(executorLock := ByWorker, worker := Wait);
    case Sleep => c' := c.(executorLock := ByWorker, worker := Wait);
    case Wait => c' := c.(worker := Check);
    case Check => c' := c.(worker := if c.jobs != [] then Move else Unlock);
    case Move =>
      c' := if c.jobs != [] then c.(batch := c.batch + [c.jobs[0]], jobs := c.jobs[1..]) else c.(worker := Unlock);
    case Unlock => c' := c.(executorLock := Free, worker := Test);
    case Test => c' := c.(worker := if c.batch != [] then Running(0) else Flag);
    case Running(next) =>
      c' := if next < |c.batch| then c.(executed := c.executed + [c.batch[next]], worker := Running(next + 1))
            else c.(worker := ClearBatch);
    case ClearBatch => c' := c.(batch := [], worker := Flag);
    case Flag => c' := c.(worker := FlagLock);
    case FlagLock => c' := c.(executorLock := ByWorker, worker := Reset);
    case Reset => c' := c.(flushingJobs := false, worker := Fulfil);
    case Fulfil => c' := c.(promises := Fulfilled(c.promises), worker := Release);
    case Release => c' := c.(executorLock := Free, worker := Loop);
  }

  ghost predicate AwaitsIn(s: State, t: ThreadId) {
    t in s.clients && s.clients[t].Flushing? && s.clients[t].stage.Await?
  }

  lemma AwaiterIsOwner(s: State, t: ThreadId)
    requires Inv(s) && AwaitsIn(s, t)
    ensures Owner(s) == s.clients[t] && BatchInv(s.core) && CountInv(s.core) && !s.core.executorLock.ByClient?
    ensures s.core.executorLock == ByWorker <==> WorkerHolds(s.core.worker)
    ensures s.clients[t].call.promise == |s.core.promises| - 1
    ensures !Kept(s.core) ==> s.core.flushingJobs || s.core.worker.Fulfil?
  {
    FlusherIsOwner(s, t);
  }

  /** The worker alone gets to fulfil the promise that a flush waits for. */
  lemma {:induction false} WorkerKeepsPromise(s: State, t: ThreadId) returns (path: seq<State>)
    requires Inv(s) && AwaitsIn(s, t) && !s.core.shouldTerminate
    ensures WorkerPath(path) && path[0] == s
    ensures Inv(path[|path| - 1]) && Kept(path[|path| - 1].core) && !path[|path| - 1].core.shouldTerminate
    decreases AnswersIn(s.core)
  {
    if Kept(s.core) {
      path := [s];
    } else {
      AwaiterIsOwner(s, t);
      var c := NextToAnswer(s.core);
      var next := s.(core := c);
      StepKeepsInv(s, next);
      if Kept(c) {
        path := [s, next];
      } else {
        var rest := WorkerKeepsPromise(next, t);
        path := [s] + rest;
        PathFrom(s, rest);
      }
    }
  }

  /** From every reachable state in which a flush waits and termination is not requested, the worker alone can get to
      fulfil the promise, and the wait of the flush then ends in time. */
  lemma FlushIsAnswered(run: seq<State>, t: ThreadId) returns (path: seq<State>)
    requires IsRun(run) && AwaitsIn(run[|run| - 1], t) && !run[|run| - 1].core.shouldTerminate
    ensures WorkerPath(path) && path[0] == run[|run| - 1]
    ensures var e := path[|path| - 1];
            && t in e.clients && e.clients[t].Flushing?
            && var f := e.clients[t].call;
               && f.promise < |e.core.promises| && e.core.promises[f.promise] > 0
               && ClientStep(e, e.(clients := e.clients[t := Flushing(Retest, f)]), t)
  {
    RunKeepsInv(run, |run| - 1);
    path := WorkerKeepsPromise(run[|run| - 1], t);
    var e := path[|path| - 1];
    assert e == path[0].(core := e.core);
    AwaiterIsOwner(e, t);
  }

  /** Some path of steps of the worker and of t leads from s to e. */
  ghost predicate Leads(s: State, e: State, t: ThreadId) {
    exists path: seq<State> :: IsLead(path, s, t) && path[|path| - 1] == e
  }

  ghost predicate IsLead(path: seq<State>, s: State, t: ThreadId) {
    && IsPath(path) && path[0] == s
    && forall i :: 0 <= i < |path| ==> OthersRest(s, path[i], t)
  }

  ghost predicate OthersRest(s: State, e: State, t: ThreadId) {
    s.clients.Keys == e.clients.Keys && forall u :: u in s.clients && u != t ==> e.clients[u] == s.clients[u]
  }

  lemma LeadOn(s: State, m: State, e: State, t: ThreadId)
    requires Leads(s, m, t) && Step(m, e) && OthersRest(m, e, t)
    ensures Leads(s, e, t)
  {
    var path: seq<State> :| IsLead(path, s, t) && path[|path| - 1] == m;
    var longer := path + [e];
    forall i | 0 <= i < |longer| - 1
      ensures Step(longer[i], longer[i + 1])
    {
      if i < |path| - 1 {
        assert Step(path[i], path[i + 1]);
      }
    }
    hide Step;
    assert OthersRest(s, m, t);
    assert IsLead(longer, s, t) && longer[|longer| - 1] == e;
  }

  lemma {:induction false} WorkerLeads(s: State, path: seq<State>, i: nat, t: ThreadId)
    requires i < |path| && WorkerPath(path) && Leads(s, path[0], t)
    ensures Leads(s, path[i], t)
  {
    if i > 0 {
      WorkerLeads(s, path, i - 1, t);
      assert Step(path[i - 1], path[i - 1 + 1]);
      assert path[i - 1].clients == path[0].clients && path[i].clients == path[0].clients;
      LeadOn(s, path[i - 1], path[i], t);
    }
  }

  /** One step of t inside its flush. */
  lemma FlushLeads(s: State, m: State, c: Core, pc: ClientPc, t: ThreadId) returns (e: State)
    requires Leads(s, m, t) && Inv(m) && InFlush(m, t)
    requires !m.clients[t].stage.Leave? && InnerStep(m.core, m.clients[t], t, c, pc) && pc.Flushing?
    ensures e == State(c, m.enqueueLock, m.clients[t := pc]) && Leads(s, e, t) && Inv(e)
  {
    e := State(c, m.enqueueLock, m.clients[t := pc]);
    assert ClientStep(m, e, t);
    StepKeepsInv(m, e);
    LeadOn(s, m, e, t);
  }

  /** The turn of a flush from its wait to the look at the queue after it. */
  lemma AnswerLeads(s: State, m: State, t: ThreadId) returns (e: State)
    requires Leads(s, m, t) && Inv(m) && AwaitsIn(m, t) && !m.core.shouldTerminate
    ensures Leads(s, e, t) && Inv(e) && !e.core.shouldTerminate
    ensures t in e.clients && e.clients[t] == Flushing(Retest, m.clients[t].call)
  {
    var path := WorkerKeepsPromise(m, t);
    WorkerLeads(s, path, |path| - 1, t);
    var answered := path[|path| - 1];
    assert answered == path[0].(core := answered.core);
    AwaiterIsOwner(answered, t);
    e := FlushLeads(s, answered, answered.core, Flushing(Retest, answered.clients[t].call), t);
  }

  function ReleasesIn(c: Core): nat {
    match c.worker
    case Wait => 4 + |c.jobs|
    case Check => 3 + |c.jobs|
    case Move => 2 + |c.jobs|
    case Unlock => 1
    case Reset => 3
    case Fulfil => 2
    case Release => 1
    case _ => 0
  }

  lemma NextToRelease(c: Core) returns (c': Core)
    requires WorkerHolds(c.worker) && c.executorLock == ByWorker && !c.shouldTerminate
    ensures WorkerStep(c, c') && !c'.shouldTerminate && c'.executorLock != ByClient(0)
    ensures c'.executorLock == Free || (c'.executorLock == ByWorker && ReleasesIn(c') < ReleasesIn(c))
  {
    match c.worker
    case Wait =>
      c' := if c.jobs != [] || c.flushingJobs then c.(worker := Check) else c.(executorLock := Free, worker := Sleep);
    case Check => c' := c.(worker := if c.jobs != [] then Move else Unlock);
    case Move =>
      c' := if c.jobs != [] then c.(batch := c.batch + [c.jobs[0]], jobs := c.jobs[1..]) else c.(worker := Unlock);
    case Unlock => c' := c.(executorLock := Free, worker := Test);
    case Reset => c' := c.(flushingJobs := false, worker := Fulfil);
    case Fulfil => c' := c.(promises := Fulfilled(c.promises), worker := Release);
    case Release => c' := c.(executorLock := Free, worker := Loop);
  }

  lemma LockFacts(s: State, t: ThreadId)
    requires Inv(s) && InFlush(s, t) && (s.clients[t].stage.Acquire? || s.clients[t].stage.Retest?)
    ensures !s.core.executorLock.ByClient? && (s.core.executorLock == ByWorker <==> WorkerHolds(s.core.worker))
  {
    FlusherIsOwner(s, t);
  }

  /** The worker alone lets go of the lock that t wants. */
  lemma {:induction false} LockGetsFree(s: State, m: State, t: ThreadId) returns (e: State)
    requires Leads(s, m, t) && Inv(m) && InFlush(m, t) && m.clients[t].stage.Acquire? && !m.core.shouldTerminate
    ensures Leads(s, e, t) && Inv(e) && e.clients == m.clients && e.core.executorLock == Free && !e.core.shouldTerminate
    decreases ReleasesIn(m.core)
  {
    LockFacts(m, t);
    if m.core.executorLock == Free {
      e := m;
    } else {
      var c := NextToRelease(m.core);
      var next := m.(core := c);
      StepKeepsInv(m, next);
      LeadOn(s, m, next, t);
      if c.executorLock == Free {
        e := next;
      } else {
        e := LockGetsFree(s, next, t);
      }
    }
  }

  /** The turn of a flush from the lock to its wait. */
  lemma RoundLeads(s: State, m: State, t: ThreadId) returns (e: State)
    requires Leads(s, m, t) && Inv(m) && InFlush(m, t) && m.clients[t].stage.Acquire? && !m.core.shouldTerminate
    ensures Leads(s, e, t) && Inv(e) && AwaitsIn(e, t) && !e.core.shouldTerminate
    ensures e.clients[t].call.round == m.clients[t].call.round
  {
    e := LockGetsFree(s, m, t);
    var f := e.clients[t].call;
    e := FlushLeads(s, e, e.core.(executorLock := ByClient(t)), Flushing(Raise, f), t);
    e := RaiseLeads(s, e, t);
  }

  lemma RaiseLeads(s: State, m: State, t: ThreadId) returns (e: State)
    requires Leads(s, m, t) && Inv(m) && InFlush(m, t) && m.clients[t].stage.Raise? && !m.core.shouldTerminate
    ensures Leads(s, e, t) && Inv(e) && AwaitsIn(e, t) && !e.core.shouldTerminate
    ensures e.clients[t].call.round == m.clients[t].call.round
  {
    var f := m.clients[t].call.(settled := Settled(m.core));
    e := FlushLeads(s, m, m.core.(flushingJobs := true), Flushing(Renew, f), t);
    e := FlushLeads(s, e, e.core.(promises := e.core.promises + [0]), Flushing(Let, f), t);
    e := FlushLeads(s, e, e.core.(executorLock := Free), Flushing(Future, f), t);
    e := FlushLeads(s, e, e.core, Flushing(Await, f.(promise := |e.core.promises| - 1)), t);
  }

  /** A whole turn. */
  lemma TurnLeads(s: State, m: State, t: ThreadId) returns (e: State)
    requires Leads(s, m, t) && Inv(m) && InFlush(m, t) && m.clients[t].stage.Acquire? && !m.core.shouldTerminate
    ensures Leads(s, e, t) && Inv(e) && InFlush(e, t) && e.clients[t].stage.Retest? && !e.core.shouldTerminate
    ensures e.clients[t].call.round == m.clients[t].call.round
  {
    hide Inv, Leads;
    e := RoundLeads(s, m, t);
    e := AnswerLeads(s, e, t);
  }

  lemma SecondTurnIsLast(s: State, t: ThreadId)
    requires Inv(s) && InFlush(s, t) && s.clients[t].stage.Retest?
    ensures s.clients[t].call.round == 1 || (s.clients[t].call.round == 2 && s.core.jobs == [])
    ensures !s.clients[t].call.timedOut
  {
    FlusherIsOwner(s, t);
  }

  ghost predicate AtStage(s: State, t: ThreadId, stage: FlushStage, round: nat) {
    InFlush(s, t) && s.clients[t].stage == stage && s.clients[t].call.round == round && !s.core.shouldTerminate
  }

  lemma AgainLeads(s: State, m: State, t: ThreadId) returns (e: State)
    requires Leads(s, m, t) && Inv(m) && AtStage(m, t, Retest, 1) && m.core.jobs != []
    ensures Leads(s, e, t) && Inv(e) && AtStage(e, t, Acquire, 2)
  {
    e := FlushLeads(s, m, m.core, Flushing(Acquire, m.clients[t].call.(round := 2)), t);
  }

  lemma ReturnLeads(s: State, m: State, t: ThreadId) returns (e: State)
    requires Leads(s, m, t) && Inv(m) && InFlush(m, t) && m.clients[t].stage.Retest? && m.core.jobs == []
    ensures Leads(s, e, t) && t in e.clients && ReturnsInTime(e.clients[t])
  {
    SecondTurnIsLast(m, t);
    e := FlushLeads(s, m, m.core, Flushing(Leave, m.clients[t].call), t);
  }

  /** From its lock to its return, in one turn or two. */
  lemma TurnsLead(s: State, m: State, t: ThreadId) returns (e: State)
    requires Leads(s, m, t) && Inv(m) && InFlush(m, t) && m.clients[t].stage.Acquire? && !m.core.shouldTerminate
    ensures Leads(s, e, t) && t in e.clients && ReturnsInTime(e.clients[t])
  {
    hide Inv, Leads, ReturnsInTime;
    e := TurnLeads(s, m, t);
    SecondTurnIsLast(e, t);
    if e.core.jobs != [] {
      e := AgainLeads(s, e, t);
      e := TurnLeads(s, e, t);
      SecondTurnIsLast(e, t);
    }
    e := ReturnLeads(s, e, t);
  }

  lemma LeadsNowhere(s: State, t: ThreadId)
    ensures Leads(s, s, t)
  {
    assert IsLead([s], s, t) && [s][0] == s;
  }

  /** From every reachable state in which a flush has the enqueue lock and termination is not requested, the worker and
      the flush alone can get to its return in time. */
  lemma FlushCanReturn(run: seq<State>, t: ThreadId) returns (e: State)
    requires IsRun(run) && InFlush(run[|run| - 1], t) && run[|run| - 1].clients[t].stage.Acquire?
    requires !run[|run| - 1].core.shouldTerminate
    ensures Leads(run[|run| - 1], e, t) && t in e.clients && ReturnsInTime(e.clients[t])
  {
    var s := run[|run| - 1];
    RunKeepsInv(run, |run| - 1);
    LeadsNowhere(s, t);
    hide Inv, Leads, IsRun;
    e := TurnsLead(s, s, t);
  }
}
